/** abapEnvironmentPushATCSystemConfig: which requests are sent for a configuration file, and what they hold. */
module AtcPush {
  import opened Text
  import opened AtcBatch
  import AtcReader

  // ---------------------------------------------------------------- the body that patches the configuration

  /** A member of a JSON object, name and value as they are printed. */
  datatype Member = Member(name: string, value: string)

  function MemberText(m: Member): string {
    "\"" + m.name + "\":" + m.value
  }

  /** The members from k on, separated by commas. */
  function MembersText(members: seq<Member>, k: nat): string
    requires k <= |members|
    decreases |members| - k
  {
    if k == |members| then ""
    else if k == |members| - 1 then MemberText(members[k])
    else MemberText(members[k]) + "," + MembersText(members, k + 1)
  }

  function ObjectText(members: seq<Member>): string {
    "{" + MembersText(members, 0) + "}"
  }

  const PRIORITIES := "_priorities"

  function WithoutPriorities(members: seq<Member>): (r: seq<Member>)
    ensures forall i :: 0 <= i < |r| ==> r[i] in members && r[i].name != PRIORITIES
    ensures r == [] ==> forall i :: 0 <= i < |members| ==> members[i].name == PRIORITIES
  {
    if members == [] then []
    else if members[|members| - 1].name == PRIORITIES then WithoutPriorities(members[..|members| - 1])
    else WithoutPriorities(members[..|members| - 1]) + [members[|members| - 1]]
  }

  function ConfIdText(confUUID: string): string {
    "{\"conf_id\":\"" + confUUID + "\","
  }

  /** The base body: the printed object without its opening brace, behind the injected ID. */
  function BaseBody(confUUID: string, members: seq<Member>): string {
    ConfIdText(confUUID) + ObjectText(WithoutPriorities(members))[1..]
  }

  /** JSON values are not empty and do not end in a comma. */
  ghost predicate Proper(members: seq<Member>) {
    forall i :: 0 <= i < |members| ==> members[i].value != "" && members[i].value[|members[i].value| - 1] != ','
  }

  function Identified(confUUID: string, members: seq<Member>): seq<Member> {
    [Member("conf_id", "\"" + confUUID + "\"")] + WithoutPriorities(members)
  }

  lemma {:induction false} MembersBehind(m: Member, members: seq<Member>, k: nat)
    requires k <= |members|
    ensures MembersText([m] + members, k + 1) == MembersText(members, k)
    decreases |members| - k
  {
    hide MemberText;
    if k < |members| {
      assert ([m] + members)[k + 1] == members[k];
      MembersBehind(m, members, k + 1);
    }
  }

  /** With anything left beside the priorities, the base body is the object of the file without its
      priorities and with the ID in front. */
  lemma BaseBodyObject(confUUID: string, members: seq<Member>)
    requires WithoutPriorities(members) != []
    ensures BaseBody(confUUID, members) == ObjectText(Identified(confUUID, members))
  {
    hide WithoutPriorities;
    var rest := WithoutPriorities(members);
    var id := Member("conf_id", "\"" + confUUID + "\"");
    MembersBehind(id, rest, 0);
    assert ([id] + rest)[0] == id;
    assert ObjectText(rest)[1..] == MembersText(rest, 0) + "}";
    var more := MembersText(rest, 0);
    hide MembersText;
    ConfIdIs(confUUID);
    assert MembersText([id] + rest, 0) == MemberText(id) + "," + more by { MoreMembers(id, rest); }
    hide MemberText, ConfIdText;
    Braced(MemberText(id), more);
  }

  lemma MoreMembers(m: Member, rest: seq<Member>)
    requires rest != []
    ensures MembersText([m] + rest, 0) == MemberText(m) + "," + MembersText(rest, 0)
  {
    hide MemberText;
    MembersBehind(m, rest, 0);
  }

  lemma ConfIdIs(confUUID: string)
    ensures ConfIdText(confUUID) == "{" + MemberText(Member("conf_id", "\"" + confUUID + "\"")) + ","
  {
  }

  lemma Braced(a: string, b: string)
    ensures "{" + a + "," + (b + "}") == "{" + (a + "," + b) + "}"
  {
  }

  lemma {:induction false} LastOfMembers(members: seq<Member>, k: nat)
    requires k < |members| && Proper(members)
    ensures var s := MembersText(members, k); s != "" && s[|s| - 1] != ','
    decreases |members| - k
  {
    if k < |members| - 1 {
      LastOfMembers(members, k + 1);
      hide MemberText;
    }
  }

  /** A file that holds nothing but priorities leaves a dangling comma, which no object prints. */
  lemma DanglingComma(confUUID: string, members: seq<Member>, all: seq<Member>)
    requires WithoutPriorities(members) == [] && Proper(all)
    ensures BaseBody(confUUID, members) != ObjectText(all)
  {
    hide WithoutPriorities;
    var s, t := BaseBody(confUUID, members), MembersText(all, 0);
    assert s == ConfIdText(confUUID) + "}";
    CommaLast("{\"conf_id\":\"" + confUUID + "\"");
    assert s[|s| - 2] == ',';
    if all == [] {
      assert |ObjectText(all)| == 2 && |s| > 2;
    } else {
      LastOfMembers(all, 0);
      assert ("{" + t + "}")[|t|] == t[|t| - 1];
    }
  }

  lemma CommaLast(a: string)
    ensures (a + ",")[|a|] == ','
  {
  }

  /** The base body is a JSON object if and only if the file holds something else than priorities. */
  lemma BaseBodyWellFormed(confUUID: string, members: seq<Member>)
    requires Proper(members)
    ensures (exists all :: Proper(all) && BaseBody(confUUID, members) == ObjectText(all))
       <==> (exists i :: 0 <= i < |members| && members[i].name != "_priorities")
  {
    hide BaseBody, ObjectText;
    var rest := WithoutPriorities(members);
    if rest == [] {
      forall all | Proper(all) ensures BaseBody(confUUID, members) != ObjectText(all) {
        DanglingComma(confUUID, members, all);
      }
    } else {
      var all := Identified(confUUID, members);
      BaseBodyObject(confUUID, members);
      assert Proper(all) by {
        forall i | 0 < i < |all| ensures all[i] in members {
          assert all[i] == rest[i - 1];
        }
      }
      assert rest[0] in members && rest[0].name != PRIORITIES;
    }
  }

  /** The text of an object, from the last member to the first: names in quotes, a colon, the value, and a comma
      if more follows. */
  lemma MembersTextIs(members: seq<Member>, k: nat)
    requires k < |members|
    ensures MembersText(members, k)
         == "\"" + members[k].name + "\":" + members[k].value
            + if k == |members| - 1 then "" else "," + MembersText(members, k + 1)
    ensures ObjectText(members) == "{" + MembersText(members, 0) + "}"
  {
  }

  /** The base body in front of the members that are kept. */
  lemma BaseBodyText(confUUID: string, members: seq<Member>)
    ensures BaseBody(confUUID, members) == "{\"conf_id\":\"" + confUUID + "\"," + MembersText(WithoutPriorities(members), 0) + "}"
  {
    hide MembersText, WithoutPriorities;
    var text := MembersText(WithoutPriorities(members), 0);
    assert ("{" + text + "}")[1..] == text + "}";
  }

  /** What is kept of one member: all but the one with the priorities. */
  lemma KeptOne(m: Member)
    ensures WithoutPriorities([m]) == if m.name == "_priorities" then [] else [m]
  {
    assert [m][..0] == [];
    assert WithoutPriorities([m][..0]) == [];
  }

  /** Members are kept in their order, each on its own account. */
  lemma {:induction false} KeptConcat(a: seq<Member>, b: seq<Member>)
    ensures WithoutPriorities(a + b) == WithoutPriorities(a) + WithoutPriorities(b)
  {
    if b == [] {
      assert a + b == a;
    } else {
      var n := |b| - 1;
      KeptConcat(a, b[..n]);
      assert (a + b)[..|a + b| - 1] == a + b[..n] && (a + b)[|a + b| - 1] == b[n];
    }
  }

  method BuildParsedATCSystemConfigBaseJsonBody(confUUID: string, document: Option<seq<Member>>) returns (r: Option<string>)
    ensures document.None? ==> r.None?
    ensures document.Some? ==> r == Some(BaseBody(confUUID, document.value))
  {
    if document.None? {
      return None;
    }
    var kept: seq<Member> := [];
    for k := 0 to |document.value|
      invariant kept == WithoutPriorities(document.value[..k])
    {
      assert document.value[..k + 1][..k] == document.value[..k];
      if document.value[k].name != PRIORITIES {
        kept := kept + [document.value[k]];
      }
    }
    assert document.value[..|document.value|] == document.value;
    var output := ObjectText(kept);
    return Some(ConfIdText(confUUID) + output[1..]);
  }

  // ---------------------------------------------------------------- the request

  /** The request for a file with these members and priorities. */
  function Request(confUUID: string, members: seq<Member>, priorities: seq<Priority>): string {
    AddEndOfBatch(PrintedAll(BatchParts(confUUID, BaseBody(confUUID, members), priorities, |priorities|)))
  }

  lemma PrintedSnoc(parts: seq<Part>, p: Part)
    ensures PrintedAll(parts + [p]) == Printed(PrintedAll(parts), p)
  {
    assert (parts + [p])[..|parts|] == parts;
    hide Printed;
  }

  /** Another priority, or a line that cannot be printed. */
  lemma NextPriority(confUUID: string, base: string, priorities: seq<Priority>, n: nat)
    requires n < |priorities|
    ensures priorities[n].number.None? ==>
      BatchParts(confUUID, base, priorities, n + 1) == BatchParts(confUUID, base, priorities, n)
    ensures priorities[n].number.Some? ==>
      BatchParts(confUUID, base, priorities, n + 1)
      == BatchParts(confUUID, base, priorities, n)
       + [Part(n + 2, SinglePriority(confUUID, priorities[n].test, priorities[n].messageId), PriorityBody(priorities[n].number.value))]
  {
    hide PriorityBody;
    if priorities[n].number.Some? {
      var first := [Part(1, Configuration(confUUID), base)];
      var more := PriorityParts(confUUID, priorities, n);
      var last := [Part(n + 2, SinglePriority(confUUID, priorities[n].test, priorities[n].messageId), PriorityBody(priorities[n].number.value))];
      assert PriorityParts(confUUID, priorities, n + 1) == more + last;
      assert first + (more + last) == first + more + last;
    }
  }

  method BuildATCSystemConfigBatchRequest(confUUID: string, document: Option<seq<Member>>, parsed: Option<seq<Priority>>)
    returns (r: Option<string>)
    ensures r.Some? <==> document.Some? && parsed.Some?
    ensures r.Some? ==> r.value == Request(confUUID, document.value, parsed.value)
    ensures r.Some? && Unbroken(confUUID, document.value, parsed.value) && Unquoted(parsed.value) ==>
      ReadMessage(r.value)
      == Some(Message(confUUID, BaseBody(confUUID, document.value), ToTell(parsed.value, |parsed.value|)))
  {
    hide ReadMessage, ToTell, Unbroken, Unquoted, BatchParts, PriorityParts, PrintedAll, Printed, BaseBody, PriorityBody;
    var base := BuildParsedATCSystemConfigBaseJsonBody(confUUID, document);
    if base.None? || parsed.None? {
      return None;
    }
    var priorities := parsed.value;
    var contentID := 1;
    var batch := AddBeginOfBatch("");
    batch := AddChangesetBegin(batch, contentID);
    batch := AddPatchConfigBaseChangeset(batch, confUUID, base.value);
    FirstPart(confUUID, base.value, priorities);
    hide AddChangesetBegin, AddPatchConfigBaseChangeset, AddPatchSinglePriorityChangeset;
    for i := 0 to |priorities|
      invariant contentID == i + 1
      invariant batch == PrintedAll(BatchParts(confUUID, base.value, priorities, i))
    {
      NextPriority(confUUID, base.value, priorities, i);
      contentID := contentID + 1;
      if priorities[i].number.Some? {
        var body := PriorityBody(priorities[i].number.value);
        PrintedPriority(PrintedAll(BatchParts(confUUID, base.value, priorities, i)), contentID, confUUID, priorities[i], body);
        PrintedSnoc(BatchParts(confUUID, base.value, priorities, i),
                    Part(contentID, SinglePriority(confUUID, priorities[i].test, priorities[i].messageId), body));
        batch := AddChangesetBegin(batch, contentID);
        batch := AddPatchSinglePriorityChangeset(batch, confUUID, priorities[i].test, priorities[i].messageId, body);
      }
    }
    batch := AddEndOfBatch(batch);
    r := Some(batch);
    if Unbroken(confUUID, document.value, priorities) && Unquoted(priorities) {
      RequestTells(confUUID, document.value, priorities);
    }
  }

  lemma FirstPart(confUUID: string, base: string, priorities: seq<Priority>)
    ensures PrintedAll(BatchParts(confUUID, base, priorities, 0))
         == AddPatchConfigBaseChangeset(AddChangesetBegin(AddBeginOfBatch(""), 1), confUUID, base)
  {
    hide AddPatchConfigBaseChangeset, AddChangesetBegin, AddBeginOfBatch;
    var p := Part(1, Configuration(confUUID), base);
    PrintedSnoc([], p);
    assert BatchParts(confUUID, base, priorities, 0) == [] + [p];
  }

  lemma PrintedPriority(s: string, id: nat, confUUID: string, p: Priority, body: string)
    ensures Printed(s, Part(id, SinglePriority(confUUID, p.test, p.messageId), body))
         == AddPatchSinglePriorityChangeset(AddChangesetBegin(s, id), confUUID, p.test, p.messageId, body)
  {
    hide AddPatchSinglePriorityChangeset, AddChangesetBegin;
  }

  // ---------------------------------------------------------------- what the request holds

  /** A part belongs to the line of the file its content ID points to. */
  ghost predicate FromLine(p: Part, confUUID: string, priorities: seq<Priority>, n: nat)
    requires n <= |priorities|
  {
    && 2 <= p.contentID <= n + 1
    && priorities[p.contentID - 2].number.Some?
    && p.entity == SinglePriority(confUUID, priorities[p.contentID - 2].test, priorities[p.contentID - 2].messageId)
    && p.body == PriorityBody(priorities[p.contentID - 2].number.value)
  }

  ghost predicate Ascending(parts: seq<Part>) {
    forall i, j :: 0 <= i < j < |parts| ==> parts[i].contentID < parts[j].contentID
  }

  ghost predicate AllNumbers(priorities: seq<Priority>, n: nat)
    requires n <= |priorities|
  {
    forall i :: 0 <= i < n ==> priorities[i].number.Some?
  }

  /** Some part carries the content ID. */
  ghost predicate Carries(parts: seq<Part>, id: nat) {
    exists i :: 0 <= i < |parts| && parts[i].contentID == id
  }

  lemma CarriesSnoc(parts: seq<Part>, p: Part, id: nat)
    requires Carries(parts, id) || p.contentID == id
    ensures Carries(parts + [p], id)
  {
    if Carries(parts, id) {
      var i :| 0 <= i < |parts| && parts[i].contentID == id;
      assert (parts + [p])[i].contentID == id;
    } else {
      assert (parts + [p])[|parts|].contentID == id;
    }
  }

  /** Every priority patch comes from its line, in file order. */
  lemma {:induction false} PriorityPartsFromLines(confUUID: string, priorities: seq<Priority>, n: nat)
    requires n <= |priorities|
    ensures Ascending(PriorityParts(confUUID, priorities, n))
    ensures forall p :: p in PriorityParts(confUUID, priorities, n) ==> FromLine(p, confUUID, priorities, n)
  {
    hide PriorityBody;
    if n > 0 {
      PriorityPartsFromLines(confUUID, priorities, n - 1);
      var front := PriorityParts(confUUID, priorities, n - 1);
      assert forall i :: 0 <= i < |front| ==> front[i] in front;
    }
  }

  /** Every priority that can be printed has its patch. */
  lemma {:induction false} PriorityPartsComplete(confUUID: string, priorities: seq<Priority>, n: nat, k: nat)
    requires k < n <= |priorities| && priorities[k].number.Some?
    ensures Carries(PriorityParts(confUUID, priorities, n), k + 2)
  {
    hide PriorityBody, Carries;
    var p := priorities[n - 1];
    if k < n - 1 {
      PriorityPartsComplete(confUUID, priorities, n - 1, k);
    }
    if p.number.Some? {
      CarriesSnoc(PriorityParts(confUUID, priorities, n - 1),
                  Part(n + 1, SinglePriority(confUUID, p.test, p.messageId), PriorityBody(p.number.value)), k + 2);
    }
  }

  lemma {:induction false} PriorityPartsCount(confUUID: string, priorities: seq<Priority>, n: nat)
    requires n <= |priorities|
    ensures var parts := PriorityParts(confUUID, priorities, n);
            && |parts| <= n && (|parts| == n <==> AllNumbers(priorities, n))
            && (AllNumbers(priorities, n) ==> forall i :: 0 <= i < n ==> parts[i].contentID == i + 2)
  {
    hide PriorityBody;
    if n > 0 {
      PriorityPartsCount(confUUID, priorities, n - 1);
    }
  }

  /** The content IDs are 1, 2, ... without a gap if and only if every priority could be printed. */
  lemma ContentIDs(confUUID: string, base: string, priorities: seq<Priority>)
    ensures var parts := BatchParts(confUUID, base, priorities, |priorities|);
            (|parts| == |priorities| + 1 && forall i :: 0 <= i < |parts| ==> parts[i].contentID == i + 1)
            <==> AllNumbers(priorities, |priorities|)
  {
    PriorityPartsCount(confUUID, priorities, |priorities|);
  }

  // ---------------------------------------------------------------- reading the request

  /** No text of the file that gets into the request holds a line break. */
  ghost predicate Unbroken(confUUID: string, members: seq<Member>, priorities: seq<Priority>) {
    && Free(confUUID, '\n')
    && (forall i :: 0 <= i < |members| ==> Free(members[i].name, '\n') && Free(members[i].value, '\n'))
    && (forall i :: 0 <= i < |priorities| ==> UnbrokenLine(priorities[i]))
  }

  ghost predicate UnbrokenLine(p: Priority) {
    p.number.Some? ==> Free(p.test, '\n') && Free(p.messageId, '\n') && Free(p.number.value, '\n')
  }

  /** No name of a priority that gets into the request holds a quote. */
  ghost predicate Unquoted(priorities: seq<Priority>) {
    forall i :: 0 <= i < |priorities| ==> UnquotedLine(priorities[i])
  }

  ghost predicate UnquotedLine(p: Priority) {
    p.number.Some? ==> Free(p.test, '\'') && Free(p.messageId, '\'')
  }

  lemma MemberFree(m: Member)
    requires Free(m.name, '\n') && Free(m.value, '\n')
    ensures Free(MemberText(m), '\n')
  {
  }

  lemma {:induction false} MembersFree(members: seq<Member>, k: nat)
    requires k <= |members|
    requires forall i :: 0 <= i < |members| ==> Free(members[i].name, '\n') && Free(members[i].value, '\n')
    ensures Free(MembersText(members, k), '\n')
    decreases |members| - k
  {
    if k < |members| {
      hide MemberText, Free;
      MemberFree(members[k]);
      MembersFree(members, k + 1);
      CommaFree();
      if k < |members| - 1 {
        AtcReader.FreeConcat(MemberText(members[k]), ",");
        AtcReader.FreeConcat(MemberText(members[k]) + ",", MembersText(members, k + 1));
      }
    } else {
      assert MembersText(members, k) == "";
    }
  }

  lemma BraceFree()
    ensures Free("}", '\n')
  {
  }

  lemma CommaFree()
    ensures Free(",", '\n')
  {
  }

  lemma ConfIdFree(confUUID: string)
    requires Free(confUUID, '\n')
    ensures Free(ConfIdText(confUUID), '\n') && ConfIdText(confUUID) != "" && AtcReader.Plain(ConfIdText(confUUID))
  {
  }

  lemma BaseBodyPrintable(confUUID: string, members: seq<Member>)
    requires Unbroken(confUUID, members, [])
    ensures Free(BaseBody(confUUID, members), '\n') && BaseBody(confUUID, members) != "" && AtcReader.Plain(BaseBody(confUUID, members))
  {
    hide ConfIdText, MembersText, ObjectText, Free, AtcReader.Plain;
    ConfIdFree(confUUID);
    var rest := WithoutPriorities(members);
    MembersFree(rest, 0);
    BraceFree();
    BehindBrace(rest);
    AtcReader.FreeConcat(MembersText(rest, 0), "}");
    AtcReader.FreeConcat(ConfIdText(confUUID), MembersText(rest, 0) + "}");
    AtcReader.PlainFront(ConfIdText(confUUID), MembersText(rest, 0) + "}");
  }

  lemma BehindBrace(members: seq<Member>)
    ensures ObjectText(members)[1..] == MembersText(members, 0) + "}"
  {
    hide MembersText;
  }

  lemma PriorityBodyPrintable(number: string)
    requires Free(number, '\n')
    ensures Free(PriorityBody(number), '\n') && PriorityBody(number) != "" && AtcReader.Plain(PriorityBody(number))
  {
  }

  lemma EntityFixedFree()
    ensures Free(ROOT, '\n') && Free(TEST, '\n') && Free(MESSAGE, '\n') && Free("'", '\n') && Free("')", '\n') && Free(")", '\n')
    ensures Free("configuration", '\n') && Free("priority", '\n') && Free(PATCH, '\n') && Free(VERSION, '\n')
  {
  }

  lemma ConfigurationLineFree(confUUID: string)
    requires Free(confUUID, '\n')
    ensures Free(RequestLine(Configuration(confUUID)), '\n')
  {
    EntityFixedFree();
    hide Free;
    AtcReader.FreeConcat(ROOT, confUUID);
    AtcReader.FreeConcat(ROOT + confUUID, ")");
    AtcReader.FreeConcat("configuration", ConfigurationId(confUUID));
    AtcReader.FreeConcat(PATCH, EntityText(Configuration(confUUID)));
    AtcReader.FreeConcat(PATCH + EntityText(Configuration(confUUID)), VERSION);
  }

  lemma PriorityIdFree(confUUID: string, test: string, messageId: string)
    requires Free(confUUID, '\n') && Free(test, '\n') && Free(messageId, '\n')
    ensures Free(PriorityId(confUUID, test, messageId), '\n')
  {
    EntityFixedFree();
    hide Free;
    AtcReader.FreeConcat(ROOT, confUUID);
    AtcReader.FreeConcat(ROOT + confUUID, TEST);
    AtcReader.FreeConcat(ROOT + confUUID + TEST, "'");
    AtcReader.FreeConcat(ROOT + confUUID + TEST + "'", test);
    AtcReader.FreeConcat(ROOT + confUUID + TEST + "'" + test, MESSAGE);
    AtcReader.FreeConcat(ROOT + confUUID + TEST + "'" + test + MESSAGE, "'");
    AtcReader.FreeConcat(ROOT + confUUID + TEST + "'" + test + MESSAGE + "'", messageId);
    AtcReader.FreeConcat(ROOT + confUUID + TEST + "'" + test + MESSAGE + "'" + messageId, "')");
  }

  lemma PriorityLineFree(confUUID: string, test: string, messageId: string)
    requires Free(confUUID, '\n') && Free(test, '\n') && Free(messageId, '\n')
    ensures Free(RequestLine(SinglePriority(confUUID, test, messageId)), '\n')
  {
    hide Free, PriorityId;
    EntityFixedFree();
    PriorityIdFree(confUUID, test, messageId);
    var e := SinglePriority(confUUID, test, messageId);
    AtcReader.FreeConcat("priority", PriorityId(confUUID, test, messageId));
    AtcReader.FreeConcat(PATCH, EntityText(e));
    AtcReader.FreeConcat(PATCH + EntityText(e), VERSION);
  }

  lemma LinePrintable(confUUID: string, p: Priority, id: nat)
    requires Free(confUUID, '\n') && UnbrokenLine(p) && p.number.Some?
    ensures AtcReader.Printable(Part(id, SinglePriority(confUUID, p.test, p.messageId), PriorityBody(p.number.value)))
  {
    hide RequestLine, PriorityBody, Free, AtcReader.Plain;
    PriorityBodyPrintable(p.number.value);
    PriorityLineFree(confUUID, p.test, p.messageId);
  }

  lemma {:induction false} PriorityPartsPrintable(confUUID: string, priorities: seq<Priority>, n: nat)
    requires n <= |priorities| && Unbroken(confUUID, [], priorities)
    ensures AtcReader.AllPrintable(PriorityParts(confUUID, priorities, n))
  {
    hide PriorityBody, Free, AtcReader.Printable, UnbrokenLine;
    if n > 0 {
      PriorityPartsPrintable(confUUID, priorities, n - 1);
      if priorities[n - 1].number.Some? {
        LinePrintable(confUUID, priorities[n - 1], n + 1);
      }
    }
  }

  lemma RequestPrintable(confUUID: string, members: seq<Member>, priorities: seq<Priority>)
    requires Unbroken(confUUID, members, priorities)
    ensures AtcReader.AllPrintable(BatchParts(confUUID, BaseBody(confUUID, members), priorities, |priorities|))
  {
    hide PriorityParts, BaseBody, Free, RequestLine, AtcReader.Plain;
    BaseBodyPrintable(confUUID, members);
    ConfigurationLineFree(confUUID);
    PriorityPartsPrintable(confUUID, priorities, |priorities|);
    var parts := BatchParts(confUUID, BaseBody(confUUID, members), priorities, |priorities|);
    assert AtcReader.Printable(parts[0]);
  }

  lemma {:induction false} PriorityPartsQuotable(confUUID: string, priorities: seq<Priority>, n: nat)
    requires n <= |priorities| && Unquoted(priorities)
    ensures forall i :: 0 <= i < |PriorityParts(confUUID, priorities, n)| ==>
              AtcReader.Quotable(PriorityParts(confUUID, priorities, n)[i].entity)
  {
    hide PriorityBody, Free;
    if n > 0 {
      PriorityPartsQuotable(confUUID, priorities, n - 1);
      assert UnquotedLine(priorities[n - 1]);
    }
  }

  /** With a quote in a name there is a patch that cannot be read. */
  lemma QuotedPart(confUUID: string, base: string, priorities: seq<Priority>)
    requires !Unquoted(priorities)
    ensures exists i :: 0 <= i < |BatchParts(confUUID, base, priorities, |priorities|)|
                        && !AtcReader.Quotable(BatchParts(confUUID, base, priorities, |priorities|)[i].entity)
  {
    hide PriorityBody;
    var parts := PriorityParts(confUUID, priorities, |priorities|);
    var k :| 0 <= k < |priorities| && !UnquotedLine(priorities[k]);
    PriorityPartsComplete(confUUID, priorities, |priorities|, k);
    PriorityPartsFromLines(confUUID, priorities, |priorities|);
    hide PriorityParts;
    var i :| 0 <= i < |parts| && parts[i].contentID == k + 2;
    assert parts[i] in parts;
    assert FromLine(parts[i], confUUID, priorities, |priorities|);
    assert BatchParts(confUUID, base, priorities, |priorities|)[i + 1] == parts[i];
  }

  lemma ConfigurationQuotable(confUUID: string)
    ensures AtcReader.Quotable(Configuration(confUUID))
  {
  }

  /** Reading the request that was built gives back the patch of the configuration, followed by the
      patches of the priorities, if and only if no name of a patched priority holds a quote. */
  lemma RequestReads(confUUID: string, members: seq<Member>, priorities: seq<Priority>)
    requires Unbroken(confUUID, members, priorities)
    ensures AtcReader.ReadBatch(Request(confUUID, members, priorities))
            == Some(BatchParts(confUUID, BaseBody(confUUID, members), priorities, |priorities|))
       <==> Unquoted(priorities)
  {
    hide AtcReader.ReadBatch, PrintedAll, PriorityParts, BaseBody, AddEndOfBatch, AtcReader.AllPrintable, AtcReader.Quotable;
    var parts := BatchParts(confUUID, BaseBody(confUUID, members), priorities, |priorities|);
    if Unquoted(priorities) {
      RequestPrintable(confUUID, members, priorities);
      PriorityPartsQuotable(confUUID, priorities, |priorities|);
      assert AtcReader.Quotable(parts[0].entity) by { ConfigurationQuotable(confUUID); }
      AtcReader.ReadPrinted(parts);
    } else {
      AtcReader.ReadBatchQuotable(Request(confUUID, members, priorities));
      QuotedPart(confUUID, BaseBody(confUUID, members), priorities);
    }
  }

  /** A priority as the system is told it: the position of its line, its names, and its number. */
  datatype Told = Told(line: nat, test: string, messageId: string, number: string)

  /** The number in the body of a priority patch. */
  function ReadNumber(body: string): Option<string> {
    AtcReader.Strip(body, "{\"priority\":", "}")
  }

  function ReadTold(p: Part, confUUID: string): Option<Told> {
    if p.contentID < 2 || !p.entity.SinglePriority? || p.entity.confUUID != confUUID then None
    else match ReadNumber(p.body)
      case None => None
      case Some(number) => Some(Told(p.contentID - 2, p.entity.test, p.entity.messageId, number))
  }

  function ReadAllTold(parts: seq<Part>, confUUID: string): Option<seq<Told>> {
    if parts == [] then Some([])
    else match (ReadAllTold(parts[..|parts| - 1], confUUID), ReadTold(parts[|parts| - 1], confUUID))
      case (Some(front), Some(last)) => Some(front + [last])
      case _ => None
  }

  /** What a request tells: configuration, base body, and priorities. */
  datatype Message = Message(confUUID: string, base: string, told: seq<Told>)

  function ReadMessage(text: string): Option<Message> {
    match AtcReader.ReadBatch(text)
    case None => None
    case Some(parts) =>
      if parts == [] || parts[0].contentID != 1 || !parts[0].entity.Configuration? then None
      else match ReadAllTold(parts[1..], parts[0].entity.confUUID)
        case None => None
        case Some(told) => Some(Message(parts[0].entity.confUUID, parts[0].body, told))
  }

  /** The lines of the file that can be printed, in their order. */
  function ToTell(priorities: seq<Priority>, n: nat): seq<Told>
    requires n <= |priorities|
  {
    if n == 0 then []
    else match priorities[n - 1]
      case Priority(_, _, None) => ToTell(priorities, n - 1)
      case Priority(test, messageId, Some(number)) => ToTell(priorities, n - 1) + [Told(n - 1, test, messageId, number)]
  }

  lemma NumberRead(number: string)
    ensures ReadNumber(PriorityBody(number)) == Some(number)
  {
    AtcReader.StripOf("{\"priority\":", number, "}");
    hide AtcReader.Strip;
  }

  lemma PartTells(n: nat, confUUID: string, test: string, messageId: string, number: string)
    ensures ReadTold(Part(n + 2, SinglePriority(confUUID, test, messageId), PriorityBody(number)), confUUID)
         == Some(Told(n, test, messageId, number))
  {
    NumberRead(number);
    hide PriorityBody, ReadNumber;
  }

  lemma OneMoreTold(parts: seq<Part>, p: Part, confUUID: string)
    requires ReadAllTold(parts, confUUID).Some? && ReadTold(p, confUUID).Some?
    ensures ReadAllTold(parts + [p], confUUID) == Some(ReadAllTold(parts, confUUID).value + [ReadTold(p, confUUID).value])
  {
    assert (parts + [p])[..|parts|] == parts;
    hide ReadTold;
  }

  lemma {:induction false} PartsTell(confUUID: string, priorities: seq<Priority>, n: nat)
    requires n <= |priorities|
    ensures ReadAllTold(PriorityParts(confUUID, priorities, n), confUUID) == Some(ToTell(priorities, n))
  {
    hide PriorityBody, ReadTold, ReadAllTold;
    if n == 0 {
      NothingTold(confUUID);
    } else {
      PartsTell(confUUID, priorities, n - 1);
      var p := priorities[n - 1];
      if p.number.Some? {
        var part := Part(n + 1, SinglePriority(confUUID, p.test, p.messageId), PriorityBody(p.number.value));
        PartTells(n - 1, confUUID, p.test, p.messageId, p.number.value);
        OneMoreTold(PriorityParts(confUUID, priorities, n - 1), part, confUUID);
      }
    }
  }

  lemma NothingTold(confUUID: string)
    ensures ReadAllTold([], confUUID) == Some([])
  {
  }

  /** The request tells the system what the file says: its configuration, the base body, and of every line that
      can be printed the names and the number, at the line's position. */
  lemma RequestTells(confUUID: string, members: seq<Member>, priorities: seq<Priority>)
    requires Unbroken(confUUID, members, priorities) && Unquoted(priorities)
    ensures ReadMessage(Request(confUUID, members, priorities))
         == Some(Message(confUUID, BaseBody(confUUID, members), ToTell(priorities, |priorities|)))
  {
    hide AtcReader.ReadBatch, PriorityParts, BaseBody, Request, ReadAllTold, ToTell;
    RequestReads(confUUID, members, priorities);
    PartsTell(confUUID, priorities, |priorities|);
    var parts := BatchParts(confUUID, BaseBody(confUUID, members), priorities, |priorities|);
    assert parts[1..] == PriorityParts(confUUID, priorities, |priorities|);
  }

  lemma {:induction false} ToTellHolds(priorities: seq<Priority>, n: nat, x: Told)
    requires n <= |priorities|
    ensures x in ToTell(priorities, n)
       <==> x.line < n && priorities[x.line] == Priority(x.test, x.messageId, Some(x.number))
  {
    if n > 0 { ToTellHolds(priorities, n - 1, x); }
  }

  /** Two files without quotes in names and with the same request agree in the configuration, in the base body, and
      line by line in all priorities that can be printed. */
  lemma RequestInjective(confUUID: string, members: seq<Member>, priorities: seq<Priority>,
                         confUUID': string, members': seq<Member>, priorities': seq<Priority>)
    requires Unbroken(confUUID, members, priorities) && Unquoted(priorities)
    requires Unbroken(confUUID', members', priorities') && Unquoted(priorities')
    requires Request(confUUID, members, priorities) == Request(confUUID', members', priorities')
    ensures confUUID == confUUID' && BaseBody(confUUID, members) == BaseBody(confUUID', members')
    ensures forall k :: 0 <= k < |priorities| && priorities[k].number.Some? ==> k < |priorities'| && priorities'[k] == priorities[k]
    ensures forall k :: 0 <= k < |priorities'| && priorities'[k].number.Some? ==> k < |priorities| && priorities[k] == priorities'[k]
  {
    hide ReadMessage, BaseBody, Request, ToTell, Unbroken, Unquoted;
    RequestTells(confUUID, members, priorities);
    RequestTells(confUUID', members', priorities');
    forall k | 0 <= k < |priorities| && priorities[k].number.Some? ensures k < |priorities'| && priorities'[k] == priorities[k] {
      var x := Told(k, priorities[k].test, priorities[k].messageId, priorities[k].number.value);
      ToTellHolds(priorities, |priorities|, x);
      ToTellHolds(priorities', |priorities'|, x);
    }
    forall k | 0 <= k < |priorities'| && priorities'[k].number.Some? ensures k < |priorities| && priorities[k] == priorities'[k] {
      var x := Told(k, priorities'[k].test, priorities'[k].messageId, priorities'[k].number.value);
      ToTellHolds(priorities, |priorities|, x);
      ToTellHolds(priorities', |priorities'|, x);
    }
  }

  // ---------------------------------------------------------------- ambiguous requests

  /** What stands between test and message ID. */
  const BETWEEN := MESSAGE + "'"

  /** The text between test and message ID occurs a second time. */
  ghost predicate SplitsTwice(test: string, messageId: string) {
    exists i: nat :: i != |test| && OccursAt(test + BETWEEN + messageId, BETWEEN, i)
  }

  lemma SameId(confUUID: string, test: string, messageId: string, test': string, messageId': string)
    ensures PriorityId(confUUID, test, messageId) == PriorityId(confUUID, test', messageId')
       <==> test + BETWEEN + messageId == test' + BETWEEN + messageId'
  {
    var front := ROOT + confUUID + TEST + "'";
    IdIs(front, test, MESSAGE, "'", messageId, "')");
    IdIs(front, test', MESSAGE, "'", messageId', "')");
    SameMiddle(front, test + BETWEEN + messageId, test' + BETWEEN + messageId', "')");
  }

  lemma IdIs(front: string, a: string, m: string, q: string, b: string, tail: string)
    ensures front + a + m + q + b + tail == front + (a + (m + q) + b) + tail
  {
  }

  lemma SameMiddle(front: string, a: string, b: string, tail: string)
    ensures front + a + tail == front + b + tail <==> a == b
  {
    AtcReader.StripOf(front, a, tail);
    AtcReader.StripOf(front, b, tail);
    hide AtcReader.Strip;
  }

  /** One text, split in two ways: the separator occurs at the other place as well. */
  lemma SplitElsewhere(a: string, sep: string, b: string, a': string, b': string)
    requires a + sep + b == a' + sep + b' && (a != a' || b != b')
    ensures |a'| != |a| && OccursAt(a + sep + b, sep, |a'|)
  {
    var s := a + sep + b;
    assert s[|a'|..|a'| + |sep|] == (a' + sep + b')[|a'|..|a'| + |sep|] == sep;
    assert s[..|a|] == a && s[|a| + |sep|..] == b;
    assert (a' + sep + b')[..|a'|] == a' && (a' + sep + b')[|a'| + |sep|..] == b';
  }

  lemma SplitAt(s: string, sep: string, i: nat)
    requires OccursAt(s, sep, i)
    ensures s[..i] + sep + s[i + |sep|..] == s
  {
    assert s == s[..i] + s[i..i + |sep|] + s[i + |sep|..];
  }

  /** The printer does not escape quotes: an entity has a second pair of names if and only if the text
      between the names occurs in it a second time. */
  lemma PriorityIdAmbiguous(confUUID: string, test: string, messageId: string)
    ensures (exists test', messageId' ::
               (test' != test || messageId' != messageId)
               && PriorityId(confUUID, test', messageId') == PriorityId(confUUID, test, messageId))
       <==> SplitsTwice(test, messageId)
  {
    hide PriorityId, OccursAt;
    forall test', messageId' | (test' != test || messageId' != messageId)
                               && PriorityId(confUUID, test', messageId') == PriorityId(confUUID, test, messageId)
      ensures SplitsTwice(test, messageId)
    {
      SameId(confUUID, test, messageId, test', messageId');
      SplitElsewhere(test, BETWEEN, messageId, test', messageId');
    }
    if SplitsTwice(test, messageId) {
      var test', messageId' := OtherNames(confUUID, test, messageId);
    }
  }

  lemma OtherNames(confUUID: string, test: string, messageId: string) returns (test': string, messageId': string)
    requires SplitsTwice(test, messageId)
    ensures test' != test && PriorityId(confUUID, test', messageId') == PriorityId(confUUID, test, messageId)
    ensures Free(test, '\n') && Free(messageId, '\n') ==> Free(test', '\n') && Free(messageId', '\n')
  {
    var s := test + BETWEEN + messageId;
    var i: nat :| i != |test| && OccursAt(s, BETWEEN, i);
    test', messageId' := s[..i], s[i + |BETWEEN|..];
    SplitAt(s, BETWEEN, i);
    SameId(confUUID, test, messageId, test', messageId');
    if Free(test, '\n') && Free(messageId, '\n') {
      EntityFixedFree();
      AtcReader.FreeConcat(MESSAGE, "'");
      AtcReader.FreeConcat(test, BETWEEN);
      AtcReader.FreeConcat(test + BETWEEN, messageId);
    }
  }

  /** Some patched priority splits twice. */
  ghost predicate Ambiguous(priorities: seq<Priority>) {
    exists k :: 0 <= k < |priorities| && priorities[k].number.Some? && SplitsTwice(priorities[k].test, priorities[k].messageId)
  }

  /** The patches for a file. */
  function PartsOf(confUUID: string, members: seq<Member>, priorities: seq<Priority>): (parts: seq<Part>)
    ensures |parts| > 0 && parts[0] == Part(1, Configuration(confUUID), BaseBody(confUUID, members))
    ensures parts[1..] == PriorityParts(confUUID, priorities, |priorities|)
  {
    BatchParts(confUUID, BaseBody(confUUID, members), priorities, |priorities|)
  }

  /** Another file gives the same request, but other patches. */
  ghost predicate HasDouble(confUUID: string, members: seq<Member>, priorities: seq<Priority>) {
    exists u, ms, ps :: Unbroken(u, ms, ps) && Request(u, ms, ps) == Request(confUUID, members, priorities)
                        && PartsOf(u, ms, ps) != PartsOf(confUUID, members, priorities)
  }

  lemma {:induction false} PartsReplaced(confUUID: string, priorities: seq<Priority>, k: nat, p: Priority, n: nat)
    requires k < |priorities| && n <= |priorities| && p.number == priorities[k].number
    requires PriorityId(confUUID, p.test, p.messageId) == PriorityId(confUUID, priorities[k].test, priorities[k].messageId)
    ensures AtcReader.AllAlike(PriorityParts(confUUID, priorities, n), PriorityParts(confUUID, priorities[k := p], n))
  {
    hide PriorityBody, PriorityId;
    if n > 0 {
      PartsReplaced(confUUID, priorities, k, p, n - 1);
    }
  }

  /** A priority that splits twice gives another file with the same request. */
  lemma AmbiguousDoubles(confUUID: string, members: seq<Member>, priorities: seq<Priority>)
    requires Unbroken(confUUID, members, priorities) && Ambiguous(priorities)
    ensures HasDouble(confUUID, members, priorities)
  {
    hide SplitsTwice, PriorityParts, BaseBody, PriorityId, Free, Request;
    var k :| 0 <= k < |priorities| && priorities[k].number.Some? && SplitsTwice(priorities[k].test, priorities[k].messageId);
    assert UnbrokenLine(priorities[k]);
    var test, messageId := OtherNames(confUUID, priorities[k].test, priorities[k].messageId);
    var p := priorities[k].(test := test, messageId := messageId);
    var others := priorities[k := p];
    assert Unbroken(confUUID, members, others);
    PartsReplaced(confUUID, priorities, k, p, |priorities|);
    SameRequest(confUUID, members, priorities, others);
    DifferentParts(confUUID, priorities, others, k);
    assert PartsOf(confUUID, members, others)[1..] != PartsOf(confUUID, members, priorities)[1..];
  }

  lemma SameRequest(confUUID: string, members: seq<Member>, priorities: seq<Priority>, others: seq<Priority>)
    requires Unbroken(confUUID, members, priorities) && Unbroken(confUUID, members, others)
    requires AtcReader.AllAlike(PriorityParts(confUUID, priorities, |priorities|), PriorityParts(confUUID, others, |others|))
    ensures Request(confUUID, members, priorities) == Request(confUUID, members, others)
  {
    hide PriorityParts, BaseBody, PrintedAll, AddEndOfBatch, AtcReader.Alike, AtcReader.AllPrintable, Unbroken;
    RequestPrintable(confUUID, members, priorities);
    RequestPrintable(confUUID, members, others);
    var ps, qs := PartsOf(confUUID, members, priorities), PartsOf(confUUID, members, others);
    assert AtcReader.Alike(ps[0], qs[0]) by { SameAlike(ps[0]); }
    AtcReader.AlikeFront(ps, qs);
    AtcReader.SameText(ps, qs);
  }

  lemma SameAlike(p: Part)
    ensures AtcReader.Alike(p, p)
  {
  }

  lemma DifferentParts(confUUID: string, priorities: seq<Priority>, others: seq<Priority>, k: nat)
    requires k < |priorities| == |others| && priorities[k].number.Some? && others[k].test != priorities[k].test
    ensures PriorityParts(confUUID, priorities, |priorities|) != PriorityParts(confUUID, others, |others|)
  {
    hide PriorityBody;
    var parts := PriorityParts(confUUID, priorities, |priorities|);
    PriorityPartsComplete(confUUID, priorities, |priorities|, k);
    PriorityPartsFromLines(confUUID, priorities, |priorities|);
    PriorityPartsFromLines(confUUID, others, |others|);
    hide PriorityParts;
    var i :| 0 <= i < |parts| && parts[i].contentID == k + 2;
    assert parts[i] in parts;
    assert FromLine(parts[i], confUUID, priorities, |priorities|);
  }

  /** Patches that print the same but differ come from a priority that splits twice. */
  lemma {:induction false} DifferentAlike(confUUID: string, priorities: seq<Priority>, others: seq<Priority>, p: Part, q: Part)
    requires p in PriorityParts(confUUID, priorities, |priorities|) && q in PriorityParts(confUUID, others, |others|)
    requires AtcReader.Alike(p, q) && p != q
    ensures Ambiguous(priorities)
  {
    hide PriorityBody, PriorityId, SplitsTwice;
    PriorityPartsFromLines(confUUID, priorities, |priorities|);
    PriorityPartsFromLines(confUUID, others, |others|);
    hide PriorityParts;
    assert FromLine(p, confUUID, priorities, |priorities|) && FromLine(q, confUUID, others, |others|);
    var line := priorities[p.contentID - 2];
    assert EntityText(p.entity) == "priority" + PriorityId(confUUID, line.test, line.messageId);
    SameBehind("priority", PriorityId(confUUID, line.test, line.messageId),
               PriorityId(confUUID, q.entity.test, q.entity.messageId));
    PriorityIdAmbiguous(confUUID, line.test, line.messageId);
  }

  lemma SameBehind(front: string, a: string, b: string)
    ensures front + a == front + b <==> a == b
  {
    AtcReader.StripPrefixOf(front, a);
    AtcReader.StripPrefixOf(front, b);
  }

  lemma SameConfiguration(u: string, v: string)
    ensures EntityText(Configuration(u)) == EntityText(Configuration(v)) <==> u == v
  {
    SameMiddle(ROOT, u, v, ")");
    hide Free;
    SameBehind("configuration", ConfigurationId(u), ConfigurationId(v));
  }

  lemma DoubleIsAmbiguous(u: string, ms: seq<Member>, ps: seq<Priority>, confUUID: string, members: seq<Member>, priorities: seq<Priority>)
    requires Unbroken(u, ms, ps) && Unbroken(confUUID, members, priorities)
    requires Request(u, ms, ps) == Request(confUUID, members, priorities)
    requires PartsOf(u, ms, ps) != PartsOf(confUUID, members, priorities)
    ensures Ambiguous(priorities)
  {
    hide PriorityParts, BaseBody, PrintedAll, AddEndOfBatch, AtcReader.AllPrintable, Unbroken, Ambiguous, EntityText;
    RequestPrintable(u, ms, ps);
    RequestPrintable(confUUID, members, priorities);
    var some, parts := PartsOf(u, ms, ps), PartsOf(confUUID, members, priorities);
    AtcReader.SameText(some, parts);
    SameConfiguration(u, confUUID);
    assert AtcReader.Alike(some[0], parts[0]);
    var i :| 0 <= i < |parts| && some[i] != parts[i];
    assert AtcReader.Alike(some[i], parts[i]);
    assert some[i] == some[1..][i - 1] && parts[i] == parts[1..][i - 1];
    DifferentAlike(confUUID, priorities, ps, parts[i], some[i]);
  }

  /** The request of a file tells its patches if and only if the text between the two names of a patched
      priority never occurs in it a second time. */
  lemma RequestAmbiguous(confUUID: string, members: seq<Member>, priorities: seq<Priority>)
    requires Unbroken(confUUID, members, priorities)
    ensures HasDouble(confUUID, members, priorities) <==> Ambiguous(priorities)
  {
    hide Request, Unbroken, PartsOf, Ambiguous;
    if Ambiguous(priorities) {
      AmbiguousDoubles(confUUID, members, priorities);
    }
    forall u, ms, ps | Unbroken(u, ms, ps) && Request(u, ms, ps) == Request(confUUID, members, priorities)
                       && PartsOf(u, ms, ps) != PartsOf(confUUID, members, priorities)
      ensures Ambiguous(priorities)
    {
      DoubleIsAmbiguous(u, ms, ps, confUUID, members, priorities);
    }
  }

  // ---------------------------------------------------------------- the decision

  /** A point in time, and the zone it is expressed in. */
  datatype Time = Time(instant: int, zone: int)

  predicate IsZero(t: Time) { t.instant == 0 }
  predicate Before(t: Time, u: Time) { t.instant < u.instant }

  /** The file as it was read: what the step looks at, and the two readings of it the request is built of. */
  datatype ConfigFile = ConfigFile(confName: string, lastChangedAt: Time, document: Option<seq<Member>>, priorities: Option<seq<Priority>>)

  /** What the system says about the configuration of that name. */
  datatype Lookup = LookupFailed | Missing | Existing(confUUID: string, lastChanged: Time)

  datatype Sent = Create | Batch(text: string)

  method HandlePushConfiguration(confUUID: string, existing: bool, file: ConfigFile, accepted: Sent -> bool)
    returns (ok: bool, sent: seq<Sent>)
    ensures !existing ==> sent == [Create] && ok == accepted(Create)
    ensures existing && (file.document.None? || file.priorities.None?) ==> sent == [] && !ok
    ensures existing && file.document.Some? && file.priorities.Some? ==>
      sent == [Batch(Request(confUUID, file.document.value, file.priorities.value))] && ok == accepted(sent[0])
  {
    hide Request;
    if existing {
      var request := BuildATCSystemConfigBatchRequest(confUUID, file.document, file.priorities);
      if request.None? {
        return false, [];
      }
      return accepted(Batch(request.value)), [Batch(request.value)];
    }
    return accepted(Create), [Create];
  }

  /** The configuration is created if it is missing, patched if it is outdated and may be patched, and left
      alone otherwise; the zones of the two times play no part. */
  method PushATCSystemConfig(file: Option<ConfigFile>, lookup: Lookup, patchIfExisting: bool, accepted: Sent -> bool)
    returns (ok: bool, sent: seq<Sent>)
    ensures file.None? || file.value.confName == "" || lookup.LookupFailed? ==> !ok && sent == []
    ensures file.Some? && file.value.confName != "" && lookup.Missing? ==> sent == [Create] && ok == accepted(Create)
    ensures file.Some? && file.value.confName != "" && lookup.Existing? ==>
      if patchIfExisting
         && (file.value.lastChangedAt.instant == 0 || lookup.lastChanged.instant < file.value.lastChangedAt.instant)
      then if file.value.document.Some? && file.value.priorities.Some?
           then sent == [Batch(Request(lookup.confUUID, file.value.document.value, file.value.priorities.value))]
                && ok == accepted(sent[0])
           else sent == [] && !ok
      else sent == [] && ok
  {
    hide Request;
    if file.None? || file.value.confName == "" || lookup.LookupFailed? {
      return false, [];
    }
    if lookup.Missing? {
      ok, sent := HandlePushConfiguration("", false, file.value, accepted);
      return;
    }
    var backend, changed := lookup.lastChanged, file.value.lastChangedAt;
    if !IsZero(changed) {
      if Before(backend, changed) && !patchIfExisting {
        return true, [];
      }
      if Before(changed, backend) || backend == changed {
        return true, [];
      }
    }
    if Before(backend, changed) || IsZero(changed) {
      if patchIfExisting {
        ok, sent := HandlePushConfiguration(lookup.confUUID, true, file.value, accepted);
        return;
      } else {
        return true, [];
      }
    }
    return true, [];
  }
}
