/** Taking a batch request apart again: a multipart reader after RFC 2046 section 5.1.1, the headers of a part,
    and the request line that names the patched entity. The printer ends lines with a line feed alone, where
    the RFC asks for carriage return and line feed; the reader splits at line feeds. */
module AtcReader {
  import opened Decimal
  import opened Text
  import opened AtcBatch

  // ---------------------------------------------------------------- multipart

  /** The position of the first boundary line, or |lines|. */
  function NextBoundary(lines: seq<string>, open: string, close: string): (i: nat)
    ensures i <= |lines| && (i < |lines| ==> lines[i] == open || lines[i] == close)
    ensures forall j :: 0 <= j < i ==> lines[j] != open && lines[j] != close
  {
    if lines == [] || lines[0] == open || lines[0] == close then 0 else NextBoundary(lines[1..], open, close) + 1
  }

  /** The body parts in the lines behind an opening boundary line, up to the closing one. */
  function Pieces(lines: seq<string>, open: string, close: string): Option<seq<seq<string>>>
    decreases |lines|
  {
    var i := NextBoundary(lines, open, close);
    if i == |lines| then None
    else if lines[i] == close then Some([lines[..i]])
    else match Pieces(lines[i + 1..], open, close)
      case None => None
      case Some(rest) => Some([lines[..i]] + rest)
  }

  /** What precedes the first boundary line and what follows the closing one is ignored. */
  function ReadMultipart(lines: seq<string>, boundary: string): Option<seq<seq<string>>> {
    var open, close := "--" + boundary, "--" + boundary + "--";
    var i := NextBoundary(lines, open, close);
    if i == |lines| || lines[i] == close then None else Pieces(lines[i + 1..], open, close)
  }

  function NextBlank(lines: seq<string>): (i: nat)
    ensures i <= |lines| && (i < |lines| ==> lines[i] == "")
    ensures forall j :: 0 <= j < i ==> lines[j] != ""
  {
    if lines == [] || lines[0] == "" then 0 else NextBlank(lines[1..]) + 1
  }

  /** Header lines, and the lines behind the first blank one. */
  function HeaderAndBody(lines: seq<string>): Option<(seq<string>, seq<string>)> {
    var i := NextBlank(lines);
    if i == |lines| then None else Some((lines[..i], lines[i + 1..]))
  }

  // ---------------------------------------------------------------- one part

  function StripPrefix(s: string, p: string): Option<string> {
    if p <= s then Some(s[|p|..]) else None
  }

  function StripSuffix(s: string, p: string): Option<string> {
    if |p| <= |s| && s[|s| - |p|..] == p then Some(s[..|s| - |p|]) else None
  }

  function Strip(s: string, p: string, q: string): Option<string> {
    match StripPrefix(s, p)
    case None => None
    case Some(t) => StripSuffix(t, q)
  }

  /** The texts around a quoted value that ends s: s == front + separator + "'" + value. */
  function ReadQuoted(s: string, separator: string): Option<(string, string)> {
    match SplitLast(s, '\'')
    case None => None
    case Some((front, value)) =>
      match StripSuffix(front, separator)
      case None => None
      case Some(rest) => Some((rest, value))
  }

  /** The entity a request addresses. The quoted values are read from the right, as a configuration ID may
      hold anything. */
  function ReadEntity(text: string): Option<Entity> {
    match Strip(text, "configuration" + ROOT, ")")
    case Some(id) => Some(Configuration(id))
    case None =>
      match Strip(text, "priority" + ROOT, "')")
      case None => None
      case Some(keys) =>
        match ReadQuoted(keys, MESSAGE)
        case None => None
        case Some((front, messageId)) =>
          match ReadQuoted(front, TEST)
          case None => None
          case Some((id, test)) => Some(SinglePriority(id, test, messageId))
  }

  function ReadRequest(line: string): Option<Entity> {
    match Strip(line, PATCH, VERSION)
    case None => None
    case Some(text) => ReadEntity(text)
  }

  function ReadContentID(line: string): Option<nat> {
    match StripPrefix(line, CONTENT_ID)
    case None => None
    case Some(digits) => if Canonical(digits) then Some(Value(digits)) else None
  }

  /** One part of the change set: its own headers, then the enclosed request with headers and body. */
  function ReadPart(lines: seq<string>): Option<Part> {
    match HeaderAndBody(lines)
    case None => None
    case Some((headers, request)) =>
      match HeaderAndBody(request)
      case None => None
      case Some((command, body)) =>
        if |headers| != 3 || headers[0] != HTTP || headers[1] != BINARY then None
        else if |command| != 2 || command[1] != JSON || |body| != 2 || body[1] != "" then None
        else match (ReadContentID(headers[2]), ReadRequest(command[0]))
          case (Some(id), Some(entity)) => Some(Part(id, entity, body[0]))
          case _ => None
  }

  function ReadParts(pieces: seq<seq<string>>): Option<seq<Part>> {
    if pieces == [] then Some([])
    else match (ReadPart(pieces[0]), ReadParts(pieces[1..]))
      case (Some(p), Some(rest)) => Some([p] + rest)
      case _ => None
  }

  const REQUEST_SEPARATOR := "request-separator"

  /** The parts of the change set, line by line: the request has one part at the outer boundary, whose header
      names the inner one. */
  function ReadPieces(text: string): Option<seq<seq<string>>> {
    match ReadMultipart(Split(text, '\n'), REQUEST_SEPARATOR)
    case None => None
    case Some(pieces) =>
      if |pieces| != 1 then None
      else match HeaderAndBody(pieces[0])
        case None => None
        case Some((headers, inner)) =>
          if |headers| != 1 then None
          else match StripPrefix(headers[0], MIXED)
            case None => None
            case Some(boundary) => ReadMultipart(inner, boundary)
  }

  /** The whole request. */
  function ReadBatch(text: string): Option<seq<Part>> {
    match ReadPieces(text)
    case None => None
    case Some(pieces) => ReadParts(pieces)
  }

  // ---------------------------------------------------------------- reading what was printed

  lemma StripPrefixOf(p: string, s: string)
    ensures StripPrefix(p + s, p) == Some(s)
  {
    assert (p + s)[|p|..] == s;
  }

  lemma StripSuffixOf(s: string, p: string)
    ensures StripSuffix(s + p, p) == Some(s)
  {
    assert (s + p)[|s|..] == p && (s + p)[..|s|] == s;
  }

  lemma StripOf(p: string, s: string, q: string)
    ensures Strip(p + s + q, p, q) == Some(s)
  {
    StripPrefixOf(p, s + q);
    StripSuffixOf(s, q);
    assert p + s + q == p + (s + q);
  }

  lemma ReadQuotedOf(front: string, separator: string, value: string)
    requires Free(value, '\'')
    ensures ReadQuoted(front + separator + "'" + value, separator) == Some((front, value))
  {
    hide SplitLast;
    SplitLastOf(front + separator, '\'', value);
    StripSuffixOf(front, separator);
    assert front + separator + "'" + value == front + separator + ['\''] + value;
  }

  /** Names can be read back only if they hold no quote. */
  predicate Quotable(e: Entity) {
    e.SinglePriority? ==> Free(e.test, '\'') && Free(e.messageId, '\'')
  }

  lemma ReadConfiguration(id: string)
    ensures ReadEntity(EntityText(Configuration(id))) == Some(Configuration(id))
  {
    Around("configuration", ROOT, id, ")");
    StripOf("configuration" + ROOT, id, ")");
    hide Strip, ReadQuoted;
  }

  lemma Around(a: string, b: string, c: string, d: string)
    ensures a + (b + c + d) == (a + b) + c + d
  {
  }

  lemma PriorityKeys(a: string, r: string, id: string, t: string, q: string, test: string, m: string, message: string, e: string)
    ensures a + (r + id + t + q + test + m + q + message + e) == (a + r) + (id + t + q + test + m + q + message) + e
  {
  }

  lemma NotAConfiguration(a: string, rest: string, b: string, tail: string)
    requires a != "" && b != "" && a[0] != b[0]
    ensures Strip(a + rest, b + tail, ")") == None
  {
    assert (a + rest)[0] == a[0] && (b + tail)[0] == b[0];
  }

  lemma ReadPriority(id: string, test: string, messageId: string)
    requires Free(test, '\'') && Free(messageId, '\'')
    ensures ReadEntity(EntityText(SinglePriority(id, test, messageId))) == Some(SinglePriority(id, test, messageId))
  {
    hide Strip, ReadQuoted, StripSuffix;
    var keys := id + TEST + "'" + test + MESSAGE + "'" + messageId;
    PriorityKeys("priority", ROOT, id, TEST, "'", test, MESSAGE, messageId, "')");
    NotAConfiguration("priority", PriorityId(id, test, messageId), "configuration", ROOT);
    StripOf("priority" + ROOT, keys, "')");
    ReadQuotedOf(id + TEST + "'" + test, MESSAGE, messageId);
    ReadQuotedOf(id, TEST, test);
    hide PriorityId;
  }

  /** Names that are read never hold a quote. */
  lemma ReadIsQuotable(text: string)
    ensures ReadEntity(text).Some? ==> Quotable(ReadEntity(text).value)
  {
    hide Strip, StripSuffix, SplitLast;
    var keys := Strip(text, "priority" + ROOT, "')");
    if keys.Some? && ReadQuoted(keys.value, MESSAGE).Some? {
      SplitLastJoins(keys.value, '\'');
      var front := ReadQuoted(keys.value, MESSAGE).value.0;
      if ReadQuoted(front, TEST).Some? {
        SplitLastJoins(front, '\'');
      }
    }
  }

  /** An entity can be read back if and only if its names hold no quote. */
  lemma ReadEntityText(e: Entity)
    ensures ReadEntity(EntityText(e)) == Some(e) <==> Quotable(e)
  {
    hide ReadEntity, EntityText;
    ReadIsQuotable(EntityText(e));
    if Quotable(e) {
      match e
      case Configuration(id) => ReadConfiguration(id);
      case SinglePriority(id, test, messageId) => ReadPriority(id, test, messageId);
    }
  }

  lemma ReadRequestLine(e: Entity)
    requires Quotable(e)
    ensures ReadRequest(RequestLine(e)) == Some(e)
  {
    hide ReadEntity, EntityText, Strip;
    ReadEntityText(e);
    StripOf(PATCH, EntityText(e), VERSION);
  }

  lemma ReadContentIDLine(id: nat)
    ensures ReadContentID(ContentIDLine(id)) == Some(id)
  {
    hide Digits, Value;
    StripPrefixOf(CONTENT_ID, Digits(id));
    ValueOfDigits(id);
  }

  lemma HeaderAndBodyOf(headers: seq<string>, body: seq<string>)
    requires forall i :: 0 <= i < |headers| ==> headers[i] != ""
    ensures HeaderAndBody(headers + [""] + body) == Some((headers, body))
  {
    hide NextBlank;
    var lines := headers + [""] + body;
    assert lines[|headers|] == "";
    assert forall j :: 0 <= j < |headers| ==> lines[j] == headers[j];
    assert lines[..|headers|] == headers && lines[|headers| + 1..] == body;
  }

  lemma PartHeaders(a: string, b: string, c: string, d: string, e: string, body: string)
    requires a != "" && b != "" && c != "" && d != "" && e != ""
    ensures HeaderAndBody([a, b, c, "", d, e, "", body, ""]) == Some(([a, b, c], [d, e, "", body, ""]))
    ensures HeaderAndBody([d, e, "", body, ""]) == Some(([d, e], [body, ""]))
  {
    HeaderAndBodyOf([a, b, c], [d, e, "", body, ""]);
    HeaderAndBodyOf([d, e], [body, ""]);
    hide HeaderAndBody;
    assert [a, b, c] + [""] + [d, e, "", body, ""] == [a, b, c, "", d, e, "", body, ""];
    assert [d, e] + [""] + [body, ""] == [d, e, "", body, ""];
  }

  lemma LinesNotBlank(p: Part)
    ensures HTTP != "" && BINARY != "" && JSON != "" && ContentIDLine(p.contentID) != "" && RequestLine(p.entity) != ""
  {
    hide Digits, EntityText;
    assert |CONTENT_ID| > 0 && |PATCH| > 0;
  }

  lemma ReadPartLines(p: Part)
    requires Quotable(p.entity)
    ensures ReadPart(PartLines(p)) == Some(p)
  {
    hide HeaderAndBody, ReadContentID, ReadRequest, RequestLine, ContentIDLine;
    LinesNotBlank(p);
    PartHeaders(HTTP, BINARY, ContentIDLine(p.contentID), RequestLine(p.entity), JSON, p.body);
    ReadContentIDLine(p.contentID);
    ReadRequestLine(p.entity);
  }

  // ---------------------------------------------------------------- boundaries

  /** A line that is no boundary line, whatever the boundary: boundary lines start with a dash. */
  predicate Plain(line: string) {
    line == "" || line[0] != '-'
  }

  ghost predicate AllPlain(lines: seq<string>) {
    forall i :: 0 <= i < |lines| ==> Plain(lines[i])
  }

  ghost predicate Without(lines: seq<string>, open: string, close: string) {
    forall i :: 0 <= i < |lines| ==> lines[i] != open && lines[i] != close
  }

  lemma NextBoundaryOf(front: seq<string>, b: string, tail: seq<string>, open: string, close: string)
    requires Without(front, open, close) && (b == open || b == close)
    ensures NextBoundary(front + [b] + tail, open, close) == |front|
  {
    hide NextBoundary;
    var lines := front + [b] + tail;
    assert lines[|front|] == b;
    assert forall j :: 0 <= j < |front| ==> lines[j] == front[j];
  }

  lemma PiecesEnd(front: seq<string>, tail: seq<string>, open: string, close: string)
    requires Without(front, open, close)
    ensures Pieces(front + [close] + tail, open, close) == Some([front])
  {
    hide NextBoundary, Without;
    NextBoundaryOf(front, close, tail, open, close);
    assert (front + [close] + tail)[..|front|] == front;
  }

  lemma PiecesMore(front: seq<string>, tail: seq<string>, open: string, close: string)
    requires Without(front, open, close) && open != close && Pieces(tail, open, close).Some?
    ensures Pieces(front + [open] + tail, open, close) == Some([front] + Pieces(tail, open, close).value)
  {
    hide NextBoundary, Without;
    NextBoundaryOf(front, open, tail, open, close);
    var lines := front + [open] + tail;
    assert lines[..|front|] == front && lines[|front| + 1..] == tail;
  }

  /** A part keeps to the multipart format: one line per line, and a body that can be no boundary. */
  ghost predicate Printable(p: Part) {
    && Free(RequestLine(p.entity), '\n')
    && Free(p.body, '\n') && p.body != "" && Plain(p.body)
  }

  ghost predicate AllPrintable(parts: seq<Part>) {
    forall i :: 0 <= i < |parts| ==> Printable(parts[i])
  }

  lemma PlainFront(a: string, b: string)
    requires a != "" && Plain(a)
    ensures Plain(a + b)
  {
  }

  lemma FixedLinesPlain()
    ensures Plain(HTTP) && Plain(BINARY) && Plain(JSON) && Plain(CONTENT_ID) && Plain(PATCH) && Plain(MULTIPART)
    ensures CONTENT_ID != "" && PATCH != "" && MULTIPART != ""
  {
  }

  /** RFC 2046 section 5.1.1: no line of a part begins like a boundary line. */
  lemma NoBoundaryInPart(p: Part)
    requires Plain(p.body)
    ensures AllPlain(PartLines(p))
  {
    hide Digits, EntityText;
    FixedLinesPlain();
    PlainFront(CONTENT_ID, Digits(p.contentID));
    PlainFront(PATCH, EntityText(p.entity) + VERSION);
    assert PATCH + EntityText(p.entity) + VERSION == PATCH + (EntityText(p.entity) + VERSION);
    hide ContentIDLine, RequestLine;
    NinePlain(HTTP, BINARY, ContentIDLine(p.contentID), RequestLine(p.entity), JSON, p.body);
  }

  lemma NinePlain(a: string, b: string, c: string, d: string, e: string, body: string)
    requires Plain(a) && Plain(b) && Plain(c) && Plain(d) && Plain(e) && Plain(body)
    ensures AllPlain([a, b, c, "", d, e, "", body, ""])
  {
  }

  lemma PlainWithout(lines: seq<string>, open: string, close: string)
    requires AllPlain(lines) && !Plain(open) && !Plain(close)
    ensures Without(lines, open, close)
  {
  }

  lemma Boundaries()
    ensures !Plain(INNER) && !Plain(INNER_END) && INNER != INNER_END && OUTER != OUTER_END
    ensures INNER != OUTER && INNER != OUTER_END && INNER_END != OUTER && INNER_END != OUTER_END
    ensures !Plain(OUTER) && !Plain(OUTER_END)
  {
    assert |INNER| == 11 && |INNER_END| == 13 && |OUTER| == 19 && |OUTER_END| == 21;
  }

  // ---------------------------------------------------------------- the change set

  function Blocks(parts: seq<Part>): seq<seq<string>> {
    if parts == [] then [] else [PartLines(parts[0])] + Blocks(parts[1..])
  }

  lemma ChangesetSnoc(front: seq<Part>, p: Part)
    ensures ChangesetLines(front + [p]) == ChangesetLines(front) + [INNER] + PartLines(p)
  {
    hide PartLines;
    assert (front + [p])[..|front|] == front;
  }

  lemma {:induction false} ChangesetFront(p: Part, rest: seq<Part>)
    ensures ChangesetLines([p] + rest) == [INNER] + PartLines(p) + ChangesetLines(rest)
    decreases |rest|
  {
    hide PartLines, ChangesetLines;
    NoChangeset();
    if rest == [] {
      ChangesetSnoc([], p);
      assert [p] + rest == [] + [p];
    } else {
      var front, last := rest[..|rest| - 1], rest[|rest| - 1];
      ChangesetFront(p, front);
      ChangesetSnoc([p] + front, last);
      ChangesetSnoc(front, last);
      assert rest == front + [last] && [p] + rest == [p] + front + [last];
      LinesAssoc([INNER] + PartLines(p), ChangesetLines(front), [INNER], PartLines(last));
    }
  }

  lemma {:induction false} PiecesOfChangeset(p: Part, rest: seq<Part>)
    requires Plain(p.body) && forall i :: 0 <= i < |rest| ==> Plain(rest[i].body)
    ensures Pieces(PartLines(p) + ChangesetLines(rest) + [INNER_END, ""], INNER, INNER_END)
         == Some([PartLines(p)] + Blocks(rest))
    decreases |rest|
  {
    hide PartLines, Plain, AllPlain, Pieces, ChangesetLines;
    NoBoundaryInPart(p);
    Boundaries();
    PlainWithout(PartLines(p), INNER, INNER_END);
    if rest == [] {
      NoChangeset();
      PiecesEnd(PartLines(p), [""], INNER, INNER_END);
      EndOfLines(PartLines(p), INNER_END);
      assert [PartLines(p)] + Blocks(rest) == [PartLines(p)];
    } else {
      var q, more := rest[0], rest[1..];
      assert rest == [q] + more;
      ChangesetFront(q, more);
      PiecesOfChangeset(q, more);
      PiecesMore(PartLines(p), PartLines(q) + ChangesetLines(more) + [INNER_END, ""], INNER, INNER_END);
      Regroup(PartLines(p), INNER, PartLines(q), ChangesetLines(more), [INNER_END, ""]);
      assert Blocks(rest) == [PartLines(q)] + Blocks(more);
    }
  }

  lemma NoChangeset()
    ensures ChangesetLines([]) == []
  {
  }

  lemma EndOfLines(a: seq<string>, b: string)
    ensures a + [] + [b, ""] == a + [b] + [""]
  {
  }

  lemma Regroup(a: seq<string>, b: string, c: seq<string>, d: seq<string>, e: seq<string>)
    ensures a + ([b] + c + d) + e == a + [b] + (c + d + e)
  {
  }

  lemma {:induction false} ReadBlocks(parts: seq<Part>)
    requires forall i :: 0 <= i < |parts| ==> Quotable(parts[i].entity)
    ensures ReadParts(Blocks(parts)) == Some(parts)
  {
    hide ReadPart, PartLines;
    if parts != [] {
      ReadPartLines(parts[0]);
      ReadBlocks(parts[1..]);
      assert Blocks(parts)[0] == PartLines(parts[0]) && Blocks(parts)[1..] == Blocks(parts[1..]);
      assert [parts[0]] + parts[1..] == parts;
    }
  }

  /** The inner lines, headed by anything that is no boundary. */
  lemma ReadChangeset(parts: seq<Part>)
    requires parts != [] && AllPrintable(parts)
    ensures ReadMultipart(ChangesetLines(parts) + [INNER_END, ""], CHANGESET) == Some(Blocks(parts))
  {
    hide PartLines, Pieces, NextBoundary, ChangesetLines, AllPrintable, Plain;
    var p, rest := parts[0], parts[1..];
    assert parts == [p] + rest;
    ChangesetFront(p, rest);
    PlainBodies(parts);
    PiecesOfChangeset(p, rest);
    var lines := PartLines(p) + ChangesetLines(rest) + [INNER_END, ""];
    assert ChangesetLines(parts) + [INNER_END, ""] == [] + [INNER] + lines;
    NextBoundaryOf([], INNER, lines, INNER, INNER_END);
    assert ([] + [INNER] + lines)[1..] == lines;
    Boundaries();
    InnerBoundary();
  }

  lemma InnerBoundary()
    ensures "--" + CHANGESET == INNER && "--" + CHANGESET + "--" == INNER_END
  {
  }

  lemma PlainBodies(parts: seq<Part>)
    requires AllPrintable(parts)
    ensures forall i :: 0 <= i < |parts| ==> Plain(parts[i].body)
  {
    hide Plain;
    assert forall i :: 0 <= i < |parts| ==> Printable(parts[i]) ==> Plain(parts[i].body);
  }

  // ---------------------------------------------------------------- the whole request

  /** No line of the change set is a boundary line of the request around it. */
  lemma {:induction false} NoOuterBoundary(parts: seq<Part>)
    requires forall i :: 0 <= i < |parts| ==> Plain(parts[i].body)
    ensures Without(ChangesetLines(parts), OUTER, OUTER_END)
  {
    hide Plain, AllPlain, PartLines;
    if parts != [] {
      var front, p := parts[..|parts| - 1], parts[|parts| - 1];
      NoOuterBoundary(front);
      NoBoundaryInPart(p);
      Boundaries();
      PlainWithout(PartLines(p), OUTER, OUTER_END);
    }
  }

  /** Every line of a request is one line. */
  ghost predicate OneLine(lines: seq<string>) {
    forall i :: 0 <= i < |lines| ==> Free(lines[i], '\n')
  }

  lemma FreeConcat(a: string, b: string)
    requires Free(a, '\n') && Free(b, '\n')
    ensures Free(a + b, '\n')
  {
  }

  lemma FixedLinesFree()
    ensures Free(HTTP, '\n') && Free(BINARY, '\n') && Free(JSON, '\n')
    ensures Free(MIXED, '\n') && Free(CHANGESET, '\n') && Free(CONTENT_ID, '\n')
  {
  }

  lemma BoundariesFree()
    ensures Free(INNER, '\n') && Free(INNER_END, '\n') && Free(OUTER, '\n') && Free(OUTER_END, '\n')
  {
  }

  lemma DigitsFree(id: nat)
    ensures Free(Digits(id), '\n')
  {
    hide Digits;
    var s := Digits(id);
    assert forall i :: 0 <= i < |s| ==> IsDigit(s[i]);
  }

  lemma NineLines(a: string, b: string, c: string, d: string, e: string, body: string)
    requires Free(a, '\n') && Free(b, '\n') && Free(c, '\n') && Free(d, '\n') && Free(e, '\n') && Free(body, '\n')
    ensures OneLine([a, b, c, "", d, e, "", body, ""])
  {
  }

  lemma PartOneLine(p: Part)
    requires Printable(p)
    ensures OneLine(PartLines(p))
  {
    FixedLinesFree();
    DigitsFree(p.contentID);
    FreeConcat(CONTENT_ID, Digits(p.contentID));
    hide Free, RequestLine, Digits, Plain, Quotable, OneLine;
    NineLines(HTTP, BINARY, ContentIDLine(p.contentID), RequestLine(p.entity), JSON, p.body);
  }

  lemma {:induction false} ChangesetOneLine(parts: seq<Part>)
    requires AllPrintable(parts)
    ensures OneLine(ChangesetLines(parts))
  {
    if parts != [] {
      hide Printable, Free, PartLines;
      var front, p := parts[..|parts| - 1], parts[|parts| - 1];
      ChangesetOneLine(front);
      PartOneLine(p);
      BoundariesFree();
    }
  }

  lemma BatchOneLine(parts: seq<Part>)
    requires AllPrintable(parts)
    ensures OneLine(BatchLines(parts)) && Free(OUTER_END, '\n')
  {
    hide ChangesetLines;
    ChangesetOneLine(parts);
    FixedLinesFree();
    BoundariesFree();
    FreeConcat(MIXED, CHANGESET);
    hide AllPrintable;
    var head, mid, tail := HEAD, ChangesetLines(parts), [INNER_END, ""];
    assert OneLine(head) && OneLine(tail);
    assert BatchLines(parts) == head + mid + tail;
  }

  /** A part in an outer multipart text, for any boundary lines. */
  lemma OnePiece(head: string, mid: seq<string>, tail: string, open: string, close: string)
    requires head != open && head != close && tail != open && tail != close && "" != open && "" != close
    requires Without(mid, open, close)
    ensures var inner := [head, ""] + mid + [tail, ""];
            && NextBoundary([""] + [open] + (inner + [close] + []), open, close) == 1
            && Pieces(inner + [close] + [], open, close) == Some([inner])
  {
    hide Pieces, NextBoundary;
    var inner := [head, ""] + mid + [tail, ""];
    WithoutConcat([head, ""], mid, open, close);
    WithoutConcat([head, ""] + mid, [tail, ""], open, close);
    PiecesEnd(inner, [], open, close);
    NextBoundaryOf([""], open, inner + [close] + [], open, close);
  }

  lemma WithoutConcat(a: seq<string>, b: seq<string>, open: string, close: string)
    requires Without(a, open, close) && Without(b, open, close)
    ensures Without(a + b, open, close)
  {
  }

  /** The one part at the outer boundary. */
  lemma OuterPiece(parts: seq<Part>)
    requires AllPrintable(parts)
    ensures ReadMultipart(BatchLines(parts) + [OUTER_END], REQUEST_SEPARATOR)
         == Some([[MULTIPART, ""] + ChangesetLines(parts) + [INNER_END, ""]])
  {
    hide ChangesetLines, AllPrintable, Pieces, NextBoundary, Without;
    PlainBodies(parts);
    NoOuterBoundary(parts);
    Boundaries();
    FixedLinesPlain();
    OuterBoundary();
    OnePiece(MULTIPART, ChangesetLines(parts), INNER_END, OUTER, OUTER_END);
    OuterLines(OUTER, MULTIPART, ChangesetLines(parts), [INNER_END, ""], OUTER_END);
    var lines := [MULTIPART, ""] + ChangesetLines(parts) + [INNER_END, ""] + [OUTER_END] + [];
    assert BatchLines(parts) + [OUTER_END] == [""] + [OUTER] + lines;
    hide Plain;
    Behind([""] + [OUTER], lines);
    MultipartIs(BatchLines(parts) + [OUTER_END], lines, REQUEST_SEPARATOR, OUTER, OUTER_END);
  }

  lemma Behind(a: seq<string>, b: seq<string>)
    ensures (a + b)[|a|..] == b
  {
  }

  lemma MultipartIs(all: seq<string>, lines: seq<string>, boundary: string, open: string, close: string)
    requires open == "--" + boundary && close == "--" + boundary + "--" && open != close
    requires |all| >= 2 && NextBoundary(all, open, close) == 1 && all[1] == open && all[2..] == lines
    ensures ReadMultipart(all, boundary) == Pieces(lines, open, close)
  {
    hide Pieces, NextBoundary;
  }

  lemma OuterLines(a: string, b: string, mid: seq<string>, tail: seq<string>, end: string)
    ensures ["", a, b, ""] + mid + tail + [end] == [""] + [a] + ([b, ""] + mid + tail + [end] + [])
  {
  }

  lemma OuterBoundary()
    ensures "--" + REQUEST_SEPARATOR == OUTER && "--" + REQUEST_SEPARATOR + "--" == OUTER_END
  {
  }

  lemma ReadLines(parts: seq<Part>)
    requires parts != [] && AllPrintable(parts)
    ensures HeaderAndBody([MULTIPART, ""] + ChangesetLines(parts) + [INNER_END, ""])
         == Some(([MULTIPART], ChangesetLines(parts) + [INNER_END, ""]))
    ensures StripPrefix(MULTIPART, MIXED) == Some(CHANGESET)
  {
    hide ChangesetLines, AllPrintable, HeaderAndBody;
    FixedLinesPlain();
    HeaderAndBodyOf([MULTIPART], ChangesetLines(parts) + [INNER_END, ""]);
    HeaderLines(MULTIPART, ChangesetLines(parts), [INNER_END, ""]);
    StripPrefixOf(MIXED, CHANGESET);
  }

  lemma HeaderLines(a: string, mid: seq<string>, tail: seq<string>)
    ensures [a, ""] + mid + tail == [a] + [""] + (mid + tail)
  {
  }

  /** The parts of a printed request are found where they were printed. */
  lemma PrintedPieces(parts: seq<Part>)
    requires parts != [] && AllPrintable(parts)
    ensures ReadPieces(AddEndOfBatch(PrintedAll(parts))) == Some(Blocks(parts))
  {
    hide Split, HeaderAndBody, ReadMultipart, StripPrefix, BatchLines, ChangesetLines, Terminated, PrintedAll;
    BatchTextLines(parts);
    BatchOneLine(parts);
    SplitTerminated(BatchLines(parts), OUTER_END);
    OuterPiece(parts);
    ReadLines(parts);
    ReadChangeset(parts);
    hide AddEndOfBatch;
  }

  /** Reading inverts printing, for any parts that keep to the format and hold no quotes in names. */
  lemma ReadPrinted(parts: seq<Part>)
    requires parts != [] && AllPrintable(parts) && forall i :: 0 <= i < |parts| ==> Quotable(parts[i].entity)
    ensures ReadBatch(AddEndOfBatch(PrintedAll(parts))) == Some(parts)
  {
    hide ReadPieces, ReadParts, PrintedAll, AddEndOfBatch, AllPrintable, Quotable, Blocks;
    PrintedPieces(parts);
    ReadBlocks(parts);
  }

  // ---------------------------------------------------------------- requests with the same text

  /** Parts that print the same. */
  predicate Alike(p: Part, q: Part) {
    p.contentID == q.contentID && EntityText(p.entity) == EntityText(q.entity) && p.body == q.body
  }

  ghost predicate AllAlike(ps: seq<Part>, qs: seq<Part>) {
    |ps| == |qs| && forall i :: 0 <= i < |ps| ==> Alike(ps[i], qs[i])
  }

  lemma SameLines(p: Part, q: Part)
    ensures PartLines(p) == PartLines(q) <==> Alike(p, q)
  {
    hide EntityText;
    StripOf(PATCH, EntityText(p.entity), VERSION);
    StripOf(PATCH, EntityText(q.entity), VERSION);
    ReadContentIDLine(p.contentID);
    ReadContentIDLine(q.contentID);
    hide Strip, ContentIDLine, ReadContentID;
    if PartLines(p) == PartLines(q) {
      assert PartLines(p)[2] == PartLines(q)[2] && PartLines(p)[4] == PartLines(q)[4] && PartLines(p)[7] == PartLines(q)[7];
    }
  }

  lemma {:induction false} SameBlocks(ps: seq<Part>, qs: seq<Part>)
    ensures Blocks(ps) == Blocks(qs) <==> AllAlike(ps, qs)
  {
    hide PartLines, Alike;
    if ps != [] && qs != [] {
      SameBlocks(ps[1..], qs[1..]);
      SameLines(ps[0], qs[0]);
      assert Blocks(ps)[0] == PartLines(ps[0]) && Blocks(ps)[1..] == Blocks(ps[1..]);
      assert Blocks(qs)[0] == PartLines(qs[0]) && Blocks(qs)[1..] == Blocks(qs[1..]);
      AlikeFront(ps, qs);
    }
  }

  lemma AlikeFront(ps: seq<Part>, qs: seq<Part>)
    requires ps != [] && qs != []
    ensures AllAlike(ps, qs) <==> Alike(ps[0], qs[0]) && AllAlike(ps[1..], qs[1..])
  {
    hide Alike;
    if Alike(ps[0], qs[0]) && AllAlike(ps[1..], qs[1..]) {
      forall i | 0 <= i < |ps| ensures Alike(ps[i], qs[i]) {
        assert i > 0 ==> ps[i] == ps[1..][i - 1] && qs[i] == qs[1..][i - 1];
      }
    }
  }

  lemma {:induction false} AlikeChangeset(ps: seq<Part>, qs: seq<Part>)
    requires AllAlike(ps, qs)
    ensures ChangesetLines(ps) == ChangesetLines(qs)
  {
    hide PartLines, Alike;
    if ps != [] {
      var n := |ps| - 1;
      SameLines(ps[n], qs[n]);
      AlikeChangeset(ps[..n], qs[..n]);
    }
  }

  /** Two requests have the same text if and only if their parts print the same, one by one. */
  lemma SameText(ps: seq<Part>, qs: seq<Part>)
    requires ps != [] && qs != [] && AllPrintable(ps) && AllPrintable(qs)
    ensures AddEndOfBatch(PrintedAll(ps)) == AddEndOfBatch(PrintedAll(qs)) <==> AllAlike(ps, qs)
  {
    hide ReadPieces, PrintedAll, AddEndOfBatch, Blocks, Terminated, ChangesetLines, AllAlike, Plain, Free;
    PrintedPieces(ps);
    PrintedPieces(qs);
    SameBlocks(ps, qs);
    if AllAlike(ps, qs) {
      AlikeChangeset(ps, qs);
      BatchTextLines(ps);
      BatchTextLines(qs);
    }
  }

  // ---------------------------------------------------------------- what cannot be read

  /** Whatever is read holds no quotes in its names. */
  lemma {:induction false} ReadPartsQuotable(pieces: seq<seq<string>>)
    ensures ReadParts(pieces).Some? ==>
      forall i :: 0 <= i < |ReadParts(pieces).value| ==> Quotable(ReadParts(pieces).value[i].entity)
  {
    hide ReadPart, Quotable;
    if pieces != [] {
      ReadPartsQuotable(pieces[1..]);
      ReadPartQuotable(pieces[0]);
    }
  }

  lemma ReadPartQuotable(lines: seq<string>)
    ensures ReadPart(lines).Some? ==> Quotable(ReadPart(lines).value.entity)
  {
    hide HeaderAndBody, ReadContentID, Strip, ReadEntity, Quotable;
    forall text ensures ReadEntity(text).Some? ==> Quotable(ReadEntity(text).value) {
      ReadIsQuotable(text);
    }
  }

  lemma ReadBatchQuotable(text: string)
    ensures ReadBatch(text).Some? ==>
      forall i :: 0 <= i < |ReadBatch(text).value| ==> Quotable(ReadBatch(text).value[i].entity)
  {
    hide ReadParts, ReadPieces, Quotable;
    if ReadPieces(text).Some? {
      ReadPartsQuotable(ReadPieces(text).value);
    }
  }
}
