/** abapEnvironmentPushATCSystemConfig: the multipart batch request that patches a configuration and its
    priorities, and a reader that takes it apart at its boundaries (RFC 2046 section 5.1.1). */
module AtcBatch {
  import opened Decimal
  import opened Text

  // ---------------------------------------------------------------- printing

  const OUTER := "--request-separator"
  const OUTER_END := "--request-separator--"
  const INNER := "--" + CHANGESET
  const INNER_END := "--" + CHANGESET + "--"
  const MIXED := "Content-Type: multipart/mixed;boundary="
  const CHANGESET := "changeset"
  const MULTIPART := MIXED + CHANGESET
  const HTTP := "Content-Type: application/http"
  const BINARY := "Content-Transfer-Encoding: binary"
  const JSON := "Content-Type: application/json"

  const CONTENT_ID := "Content-ID: "

  function ContentIDLine(id: nat): string {
    CONTENT_ID + Digits(id)
  }

  function AddBeginOfBatch(s: string): string {
    s + "\n" + OUTER + "\n" + MULTIPART + "\n"
  }

  function AddChangesetBegin(s: string, contentID: nat): string {
    s + "\n" + INNER + "\n" + HTTP + "\n" + BINARY + "\n" + ContentIDLine(contentID) + "\n"
  }

  function AddCommandEntityChangeset(command: string, entity: string, entityId: string, s: string, jsonBody: string): string {
    s + "\n" + (command + " " + entity + entityId + " HTTP/1.1") + "\n" + JSON + "\n" + "\n"
    + if jsonBody != "" then jsonBody + "\n" else ""
  }

  const ROOT := "(root_id='1',conf_id="
  const TEST := ",test="
  const MESSAGE := "',message_id="

  function ConfigurationId(confUUID: string): string {
    ROOT + confUUID + ")"
  }

  function PriorityId(confUUID: string, test: string, messageId: string): string {
    ROOT + confUUID + TEST + "'" + test + MESSAGE + "'" + messageId + "')"
  }

  function AddPatchConfigBaseChangeset(s: string, confUUID: string, jsonBody: string): string {
    AddCommandEntityChangeset("PATCH", "configuration", ConfigurationId(confUUID), s, jsonBody)
  }

  function AddPatchSinglePriorityChangeset(s: string, confUUID: string, test: string, messageId: string, jsonBody: string): string {
    AddCommandEntityChangeset("PATCH", "priority", PriorityId(confUUID, test, messageId), s, jsonBody)
  }

  function AddEndOfBatch(s: string): string {
    s + "\n" + INNER_END + "\n" + "\n" + OUTER_END
  }

  /** A line of the priorities in the file; `number` is the priority as JSON prints it, if it can be printed. */
  datatype Priority = Priority(test: string, messageId: string, number: Option<string>)

  function PriorityBody(number: string): string {
    "{\"priority\":" + number + "}"
  }

  // ---------------------------------------------------------------- parts

  datatype Entity =
    | Configuration(confUUID: string)
    | SinglePriority(confUUID: string, test: string, messageId: string)

  /** One PATCH request of the change set. */
  datatype Part = Part(contentID: nat, entity: Entity, body: string)

  function EntityText(e: Entity): string {
    match e
    case Configuration(id) => "configuration" + ConfigurationId(id)
    case SinglePriority(id, test, messageId) => "priority" + PriorityId(id, test, messageId)
  }

  const PATCH := "PATCH" + " "
  const VERSION := " HTTP/1.1"

  function RequestLine(e: Entity): string {
    PATCH + EntityText(e) + VERSION
  }

  /** The patches for the first n priorities: a line that cannot be printed is left out, but its content
      ID is used up. */
  function PriorityParts(confUUID: string, priorities: seq<Priority>, n: nat): seq<Part>
    requires n <= |priorities|
  {
    if n == 0 then []
    else
      var p := priorities[n - 1];
      match p.number
      case None => PriorityParts(confUUID, priorities, n - 1)
      case Some(number) =>
        PriorityParts(confUUID, priorities, n - 1)
        + [Part(n + 1, SinglePriority(confUUID, p.test, p.messageId), PriorityBody(number))]
  }

  function BatchParts(confUUID: string, base: string, priorities: seq<Priority>, n: nat): seq<Part>
    requires n <= |priorities|
  {
    [Part(1, Configuration(confUUID), base)] + PriorityParts(confUUID, priorities, n)
  }

  // ---------------------------------------------------------------- lines

  /** Every line followed by a line break. */
  function Terminated(lines: seq<string>): string {
    if lines == [] then "" else Terminated(lines[..|lines| - 1]) + lines[|lines| - 1] + "\n"
  }

  /** A part between its boundary lines, the blank line that precedes the next boundary included. */
  function PartLines(p: Part): seq<string> {
    [HTTP, BINARY, ContentIDLine(p.contentID), "", RequestLine(p.entity), JSON, "", p.body, ""]
  }

  /** The parts, each behind an opening boundary line. */
  function ChangesetLines(parts: seq<Part>): seq<string> {
    if parts == [] then []
    else ChangesetLines(parts[..|parts| - 1]) + [INNER] + PartLines(parts[|parts| - 1])
  }

  /** All lines of a batch request but the last. */
  function BatchLines(parts: seq<Part>): seq<string> {
    ["", OUTER, MULTIPART, ""] + ChangesetLines(parts) + [INNER_END, ""]
  }

  lemma TerminatedSnoc(lines: seq<string>, line: string)
    ensures Terminated(lines + [line]) == Terminated(lines) + line + "\n"
  {
    assert (lines + [line])[..|lines|] == lines;
  }

  lemma {:induction false} TerminatedConcat(a: seq<string>, b: seq<string>)
    ensures Terminated(a + b) == Terminated(a) + Terminated(b)
  {
    if b == [] {
      assert a + b == a;
    } else {
      hide Terminated;
      var front, last := b[..|b| - 1], b[|b| - 1];
      TerminatedConcat(a, front);
      TerminatedSnoc(a + front, last);
      assert a + b == a + front + [last];
    }
  }

  lemma TerminatedEmpty()
    ensures Terminated([]) == ""
  {
  }

  lemma TerminatedFront(first: string, rest: seq<string>, last: string)
    ensures Terminated([first] + rest) + last == first + ['\n'] + (Terminated(rest) + last)
  {
    TerminatedConcat([first], rest);
    TerminatedSnoc([], first);
    TerminatedEmpty();
    assert [] + [first] == [first];
    hide Terminated;
    FrontAssoc(first, Terminated(rest), last);
  }

  lemma FrontAssoc(first: string, rest: string, last: string)
    ensures "" + first + "\n" + rest + last == first + ['\n'] + (rest + last)
  {
  }

  /** Splitting at line breaks gives the lines back. */
  lemma {:induction false} SplitTerminated(lines: seq<string>, last: string)
    requires Free(last, '\n') && forall i :: 0 <= i < |lines| ==> Free(lines[i], '\n')
    ensures Split(Terminated(lines) + last, '\n') == lines + [last]
  {
    hide Split, Free, Terminated;
    if lines == [] {
      SplitOne(last, '\n');
      TerminatedEmpty();
      assert "" + last == last && lines + [last] == [last];
    } else {
      var first, rest := lines[0], lines[1..];
      assert lines == [first] + rest;
      TerminatedFront(first, rest, last);
      SplitMore(first, '\n', Terminated(rest) + last);
      SplitTerminated(rest, last);
    }
  }

  // ---------------------------------------------------------------- building the request

  function Printed(s: string, p: Part): string {
    var begun := AddChangesetBegin(s, p.contentID);
    match p.entity
    case Configuration(id) => AddPatchConfigBaseChangeset(begun, id, p.body)
    case SinglePriority(id, test, messageId) => AddPatchSinglePriorityChangeset(begun, id, test, messageId, p.body)
  }

  /** Printing the parts one after the other. */
  function PrintedAll(parts: seq<Part>): string {
    if parts == [] then AddBeginOfBatch("") else Printed(PrintedAll(parts[..|parts| - 1]), parts[|parts| - 1])
  }

  lemma PrintedIsLines(s: string, p: Part)
    requires p.body != ""
    ensures Printed(s, p) == s + "\n" + INNER + "\n" + HTTP + "\n" + BINARY + "\n" + ContentIDLine(p.contentID) + "\n" + "\n"
                             + RequestLine(p.entity) + "\n" + JSON + "\n" + "\n" + p.body + "\n"
  {
    hide ContentIDLine, ConfigurationId, PriorityId;
    if p.entity.Configuration? {
      RequestLineIs("configuration", ConfigurationId(p.entity.confUUID));
    } else {
      RequestLineIs("priority", PriorityId(p.entity.confUUID, p.entity.test, p.entity.messageId));
    }
  }

  lemma RequestLineIs(entity: string, id: string)
    ensures "PATCH" + " " + entity + id + " HTTP/1.1" == "PATCH" + " " + (entity + id) + " HTTP/1.1"
  {
  }

  lemma TerminatedFive(a: string, b: string, c: string, d: string, e: string)
    ensures Terminated([a, b, c, d, e]) == a + "\n" + b + "\n" + c + "\n" + d + "\n" + e + "\n"
  {
    hide Terminated;
    TerminatedEmpty();
    TerminatedSnoc([], a);
    TerminatedSnoc([a], b);
    TerminatedSnoc([a, b], c);
    TerminatedSnoc([a, b, c], d);
    TerminatedSnoc([a, b, c, d], e);
    assert [] + [a] == [a] && [a] + [b] == [a, b] && [a, b] + [c] == [a, b, c];
    assert [a, b, c] + [d] == [a, b, c, d] && [a, b, c, d] + [e] == [a, b, c, d, e];
  }

  lemma TerminatedTen(a: string, b: string, c: string, d: string, e: string, f: string, g: string, h: string, i: string, j: string)
    ensures Terminated([a, b, c, d, e, f, g, h, i, j])
         == a + "\n" + b + "\n" + c + "\n" + d + "\n" + e + "\n" + (f + "\n" + g + "\n" + h + "\n" + i + "\n" + j + "\n")
  {
    TerminatedFive(a, b, c, d, e);
    TerminatedFive(f, g, h, i, j);
    TerminatedConcat([a, b, c, d, e], [f, g, h, i, j]);
    assert [a, b, c, d, e] + [f, g, h, i, j] == [a, b, c, d, e, f, g, h, i, j];
    hide Terminated;
  }

  /** The text of one part behind what was printed before, for any texts in the place of the fixed lines. */
  lemma OnePart(s: string, a: string, b: string, c: string, d: string, f: string, g: string, body: string)
    ensures s + "\n" + a + "\n" + b + "\n" + c + "\n" + d + "\n" + "\n" + f + "\n" + g + "\n" + "\n" + body + "\n" + "\n"
         == (s + "\n") + Terminated([a, b, c, d, "", f, g, "", body, ""])
  {
    TerminatedTen(a, b, c, d, "", f, g, "", body, "");
    hide Terminated;
    var front := a + "\n" + b + "\n" + c + "\n" + d + "\n" + "" + "\n";
    var back := f + "\n" + g + "\n" + "" + "\n" + body + "\n" + "" + "\n";
    assert front + back == Terminated([a, b, c, d, "", f, g, "", body, ""]);
    assert front == a + "\n" + b + "\n" + c + "\n" + d + "\n" + "\n";
    assert back == f + "\n" + g + "\n" + "\n" + body + "\n" + "\n";
    assert s + "\n" + front == s + "\n" + a + "\n" + b + "\n" + c + "\n" + d + "\n" + "\n";
  }

  lemma PartStep(s: string, p: Part)
    requires p.body != ""
    ensures Printed(s, p) + "\n" == (s + "\n") + Terminated([INNER] + PartLines(p))
  {
    PrintedIsLines(s, p);
    OnePart(s, INNER, HTTP, BINARY, ContentIDLine(p.contentID), RequestLine(p.entity), JSON, p.body);
    ListOfTen(INNER, HTTP, BINARY, ContentIDLine(p.contentID), RequestLine(p.entity), JSON, p.body);
    hide Terminated, RequestLine, ContentIDLine;
  }

  lemma ListOfTen(a: string, b: string, c: string, d: string, f: string, g: string, body: string)
    ensures [a] + [b, c, d, "", f, g, "", body, ""] == [a, b, c, d, "", f, g, "", body, ""]
  {
  }

  ghost predicate AllBodies(parts: seq<Part>) {
    forall i :: 0 <= i < |parts| ==> parts[i].body != ""
  }

  const HEAD := ["", OUTER, MULTIPART, ""]

  lemma HeadText()
    ensures AddBeginOfBatch("") + "\n" == Terminated(HEAD)
  {
    FourLines(OUTER, MULTIPART);
  }

  lemma FourLines(a: string, b: string)
    ensures "" + "\n" + a + "\n" + b + "\n" + "\n" == Terminated(["", a, b, ""])
  {
    hide Terminated;
    TerminatedEmpty();
    TerminatedSnoc([], "");
    TerminatedSnoc([""], a);
    TerminatedSnoc(["", a], b);
    TerminatedSnoc(["", a, b], "");
    assert [] + [""] == [""] && [""] + [a] == ["", a] && ["", a] + [b] == ["", a, b] && ["", a, b] + [""] == ["", a, b, ""];
  }

  /** What has been printed after some parts is, line by line, the head and the parts; the last line break
      is still open. */
  lemma {:induction false} PrintedLines(parts: seq<Part>)
    requires AllBodies(parts)
    ensures PrintedAll(parts) + "\n" == Terminated(HEAD + ChangesetLines(parts))
  {
    hide Printed, PartLines, AddBeginOfBatch, Terminated;
    if parts == [] {
      HeadText();
      assert HEAD + ChangesetLines(parts) == HEAD;
    } else {
      var front, p := parts[..|parts| - 1], parts[|parts| - 1];
      PrintedLines(front);
      PartStep(PrintedAll(front), p);
      TerminatedConcat(HEAD + ChangesetLines(front), [INNER] + PartLines(p));
      LinesAssoc(HEAD, ChangesetLines(front), [INNER], PartLines(p));
    }
  }

  lemma LinesAssoc(a: seq<string>, b: seq<string>, c: seq<string>, d: seq<string>)
    ensures a + b + (c + d) == a + (b + c + d)
  {
  }

  /** The whole request, line by line. */
  lemma BatchTextLines(parts: seq<Part>)
    requires AllBodies(parts)
    ensures AddEndOfBatch(PrintedAll(parts)) == Terminated(BatchLines(parts)) + OUTER_END
  {
    PrintedLines(parts);
    EndLines(PrintedAll(parts), HEAD + ChangesetLines(parts), INNER_END, OUTER_END);
    LinesAssoc2(HEAD, ChangesetLines(parts), [INNER_END, ""]);
    hide PrintedAll, ChangesetLines, Terminated;
  }

  lemma LinesAssoc2(a: seq<string>, b: seq<string>, c: seq<string>)
    ensures a + b + c == a + (b + c)
  {
  }

  lemma EndLines(s: string, lines: seq<string>, inner: string, outer: string)
    requires s + "\n" == Terminated(lines)
    ensures s + "\n" + inner + "\n" + "\n" + outer == Terminated(lines + [inner, ""]) + outer
  {
    hide Terminated;
    TerminatedSnoc(lines, inner);
    TerminatedSnoc(lines + [inner], "");
    assert lines + [inner] + [""] == lines + [inner, ""];
  }

  // ---------------------------------------------------------------- the lines, word by word

  /** A patch of the configuration, and of a priority. */
  lemma PartLayout(id: nat, confUUID: string, test: string, messageId: string, body: string)
    ensures PartLines(Part(id, Configuration(confUUID), body))
         == ["Content-Type: application/http", "Content-Transfer-Encoding: binary", "Content-ID: " + Digits(id), "",
             "PATCH configuration(root_id='1',conf_id=" + confUUID + ") HTTP/1.1", "Content-Type: application/json", "", body, ""]
    ensures PartLines(Part(id, SinglePriority(confUUID, test, messageId), body))
         == ["Content-Type: application/http", "Content-Transfer-Encoding: binary", "Content-ID: " + Digits(id), "",
             "PATCH priority(root_id='1',conf_id=" + confUUID + ",test='" + test + "',message_id='" + messageId + "') HTTP/1.1",
             "Content-Type: application/json", "", body, ""]
  {
    ConfigurationLine(confUUID);
    PriorityLine(confUUID, test, messageId);
    hide RequestLine, Digits;
  }

  lemma ConfigurationLine(confUUID: string)
    ensures RequestLine(Configuration(confUUID)) == "PATCH configuration(root_id='1',conf_id=" + confUUID + ") HTTP/1.1"
  {
    FiveTexts("PATCH ", "configuration", "(root_id='1',conf_id=", confUUID, ")", " HTTP/1.1");
    assert "PATCH " + "configuration" + "(root_id='1',conf_id=" == "PATCH configuration(root_id='1',conf_id=";
    assert ")" + " HTTP/1.1" == ") HTTP/1.1";
    assert "PATCH" + " " == "PATCH ";
  }

  lemma FiveTexts(a: string, b: string, c: string, d: string, e: string, f: string)
    ensures a + (b + (c + d + e)) + f == (a + b + c) + d + (e + f)
  {
  }

  lemma PriorityLine(confUUID: string, test: string, messageId: string)
    ensures RequestLine(SinglePriority(confUUID, test, messageId))
         == "PATCH priority(root_id='1',conf_id=" + confUUID + ",test='" + test + "',message_id='" + messageId + "') HTTP/1.1"
  {
    PriorityTexts("PATCH ", "priority", "(root_id='1',conf_id=", confUUID, ",test=", "'", test, "',message_id=", messageId, "')", " HTTP/1.1");
    assert "PATCH " + "priority" + "(root_id='1',conf_id=" == "PATCH priority(root_id='1',conf_id=";
    assert ",test=" + "'" == ",test='" && "',message_id=" + "'" == "',message_id='";
    assert "')" + " HTTP/1.1" == "') HTTP/1.1";
    assert "PATCH" + " " == "PATCH ";
  }

  lemma PriorityTexts(a: string, b: string, c: string, d: string, e: string, q: string, f: string, g: string, h: string, i: string, j: string)
    ensures a + (b + (c + d + e + q + f + g + q + h + i)) + j == (a + b + c) + d + (e + q) + f + (g + q) + h + (i + j)
  {
  }

  /** The lines around the parts. */
  lemma FrameLayout(parts: seq<Part>)
    ensures BatchLines(parts)
         == ["", "--request-separator", "Content-Type: multipart/mixed;boundary=changeset", ""] + ChangesetLines(parts)
            + ["--changeset--", ""]
    ensures OUTER_END == "--request-separator--" && INNER == "--changeset"
  {
    assert MIXED + CHANGESET == "Content-Type: multipart/mixed;boundary=changeset";
    assert "--" + CHANGESET + "--" == "--changeset--" && "--" + CHANGESET == "--changeset";
    hide ChangesetLines;
  }
}
