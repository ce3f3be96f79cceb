/** abapEnvironmentBuild: which repositories of the add-on descriptor are built, and which of their
    fields become values under which name. */
module DescriptorValues {
  import opened BuildValues
  import opened Text

  /** A field of a repository record: its name and its text. */
  datatype Field = Field(name: string, text: string)

  datatype UseField = UseField(used: string, renameTo: string)

  datatype Condition = Condition(field: string, operator: string, text: string)

  ghost predicate DistinctNames(fields: seq<Field>) {
    forall i, j :: 0 <= i < j < |fields| ==> fields[i].name != fields[j].name
  }

  // ---------------------------------------------------------------- checkCondition

  const INVALID := "<invalid Value>"

  /** The text of a field, or what reflection prints for a field that does not exist. */
  function GetField(fields: seq<Field>, n: nat, name: string): (text: string)
    requires n <= |fields|
    ensures (forall i :: 0 <= i < n ==> fields[i].name != name) ==> text == INVALID
  {
    if n == 0 then INVALID
    else if fields[n - 1].name == name then fields[n - 1].text
    else GetField(fields, n - 1, name)
  }

  predicate IsValid(c: Condition) {
    c.field != "" && c.text != "" && (c.operator == "==" || c.operator == "!=")
  }

  predicate IsMet(c: Condition, fields: seq<Field>) {
    if c.operator == "==" then GetField(fields, |fields|, c.field) == c.text
    else GetField(fields, |fields|, c.field) != c.text
  }

  datatype ConditionResult = Use | DoNotUse | ConditionError

  /** The first n conditions are valid and met. */
  ghost predicate AllMet(conditions: seq<Condition>, n: nat, fields: seq<Field>)
    requires n <= |conditions|
  {
    forall i :: 0 <= i < n ==> IsValid(conditions[i]) && IsMet(conditions[i], fields)
  }

  /** The repository is to be used. */
  ghost predicate IsUsed(fields: seq<Field>, conditions: Json<Condition>) {
    conditions.EmptyText? || (conditions.List? && AllMet(conditions.items, |conditions.items|, fields))
  }

  /** The check comes to an invalid condition: all conditions before it are met. */
  ghost predicate ConditionsFail(fields: seq<Field>, conditions: Json<Condition>) {
    conditions.Malformed?
    || (conditions.List?
        && exists k :: 0 <= k < |conditions.items| && AllMet(conditions.items, k, fields) && !IsValid(conditions.items[k]))
  }

  /** Conditions are checked in order; the first one that is invalid or not met decides. */
  method CheckCondition(fields: seq<Field>, conditions: Json<Condition>) returns (result: ConditionResult)
    ensures result == Use <==> IsUsed(fields, conditions)
    ensures result == ConditionError <==> ConditionsFail(fields, conditions)
  {
    hide IsMet, IsValid;
    if conditions.Malformed? {
      return ConditionError;
    }
    if conditions.EmptyText? {
      return Use;
    }
    var k := 0;
    while k < |conditions.items|
      invariant k <= |conditions.items| && AllMet(conditions.items, k, fields)
    {
      var decision := JudgeCondition(conditions.items[k], fields);
      if decision != Use {
        Decides(fields, conditions.items, k);
        return decision;
      }
      k := k + 1;
    }
    result := Use;
  }

  method JudgeCondition(c: Condition, fields: seq<Field>) returns (result: ConditionResult)
    ensures result == ConditionError <==> !IsValid(c)
    ensures result == Use <==> IsValid(c) && IsMet(c, fields)
  {
    if c.field == "" || c.operator == "" || c.text == "" {
      return ConditionError;
    }
    var text := GetField(fields, |fields|, c.field);
    if c.operator == "==" {
      result := if text == c.text then Use else DoNotUse;
    } else if c.operator == "!=" {
      result := if text != c.text then Use else DoNotUse;
    } else {
      result := ConditionError;
    }
  }

  lemma Decides(fields: seq<Field>, conditions: seq<Condition>, k: nat)
    requires k < |conditions| && AllMet(conditions, k, fields)
    requires !(IsValid(conditions[k]) && IsMet(conditions[k], fields))
    ensures !AllMet(conditions, |conditions|, fields)
    ensures ConditionsFail(fields, List(conditions)) <==> !IsValid(conditions[k])
  {
    hide IsMet, IsValid;
    assert forall j :: k < j <= |conditions| ==> !AllMet(conditions, j, fields);
  }

  // ---------------------------------------------------------------- generateValues

  /** The name a field is given: the last entry for it counts. */
  function Rename(uses: seq<UseField>, n: nat, name: string): Option<string>
    requires n <= |uses|
  {
    if n == 0 then None
    else if uses[n - 1].used == name then Some(uses[n - 1].renameTo)
    else Rename(uses, n - 1, name)
  }

  /** The first n fields that are used, in field order, under their new names. */
  function SelectFields(fields: seq<Field>, n: nat, uses: seq<UseField>): seq<Value>
    requires n <= |fields|
  {
    if n == 0 then []
    else match Rename(uses, |uses|, fields[n - 1].name)
      case None => SelectFields(fields, n - 1, uses)
      case Some(id) => SelectFields(fields, n - 1, uses) + [Value(id, fields[n - 1].text)]
  }

  ghost predicate AllGiven(uses: seq<UseField>, n: nat)
    requires n <= |uses|
  {
    forall i :: 0 <= i < n ==> uses[i].used != "" && uses[i].renameTo != ""
  }

  /** The names used are pairwise distinct. */
  ghost predicate DistinctUses(uses: seq<UseField>, n: nat)
    requires n <= |uses|
  {
    forall i, j :: 0 <= i < j < n ==> uses[i].used != uses[j].used
  }

  ghost predicate HasField(fields: seq<Field>, name: string) {
    exists j :: 0 <= j < |fields| && fields[j].name == name
  }

  /** Every name used is that of a field. */
  ghost predicate AllExist(uses: seq<UseField>, fields: seq<Field>) {
    forall i :: 0 <= i < |uses| ==> HasField(fields, uses[i].used)
  }

  function UsedNames(uses: seq<UseField>, n: nat): set<string>
    requires n <= |uses|
  {
    set i | 0 <= i < n :: uses[i].used
  }

  function FieldNames(fields: seq<Field>, n: nat): set<string>
    requires n <= |fields|
  {
    set i | 0 <= i < n :: fields[i].name
  }

  lemma {:induction false} RenameIs(uses: seq<UseField>, n: nat, name: string)
    requires n <= |uses|
    ensures Rename(uses, n, name).Some? <==> name in UsedNames(uses, n)
    ensures Rename(uses, n, name).Some? ==>
      exists i :: 0 <= i < n && uses[i] == UseField(name, Rename(uses, n, name).value)
                  && forall j :: i < j < n ==> uses[j].used != name
  {
    if n > 0 {
      RenameIs(uses, n - 1, name);
      assert UsedNames(uses, n) == UsedNames(uses, n - 1) + {uses[n - 1].used};
    }
  }

  /** There are at most as many names as entries, and as many only if no name is used twice. */
  lemma {:induction false} UsedNamesCount(uses: seq<UseField>, n: nat)
    requires n <= |uses|
    ensures |UsedNames(uses, n)| <= n
    ensures |UsedNames(uses, n)| == n <==> DistinctUses(uses, n)
  {
    if n > 0 {
      UsedNamesCount(uses, n - 1);
      NextUse(uses, n);
      hide UsedNames, DistinctUses;
      var last := uses[n - 1].used;
      if last in UsedNames(uses, n - 1) {
        assert UsedNames(uses, n) == UsedNames(uses, n - 1);
      }
    }
  }

  lemma NextUse(uses: seq<UseField>, n: nat)
    requires 0 < n <= |uses|
    ensures UsedNames(uses, n) == UsedNames(uses, n - 1) + {uses[n - 1].used}
    ensures DistinctUses(uses, n) <==> DistinctUses(uses, n - 1) && uses[n - 1].used !in UsedNames(uses, n - 1)
  {
    if uses[n - 1].used in UsedNames(uses, n - 1) {
      var i :| 0 <= i < n - 1 && uses[i].used == uses[n - 1].used;
      assert !DistinctUses(uses, n);
    }
  }

  lemma NextName(fields: seq<Field>, n: nat)
    requires 0 < n <= |fields| && DistinctNames(fields)
    ensures FieldNames(fields, n) == FieldNames(fields, n - 1) + {fields[n - 1].name}
    ensures fields[n - 1].name !in FieldNames(fields, n - 1)
  {
  }

  lemma NoNames(fields: seq<Field>, a: set<string>)
    ensures |a * FieldNames(fields, 0)| == 0
  {
    assert a * FieldNames(fields, 0) == {};
  }

  lemma CountNext(a: set<string>, b: set<string>, name: string)
    requires name !in b
    ensures |a * (b + {name})| == |a * b| + if name in a then 1 else 0
  {
    if name in a {
      assert a * (b + {name}) == a * b + {name};
    } else {
      assert a * (b + {name}) == a * b;
    }
  }

  /** One value per field name that is used. */
  lemma {:induction false} SelectFieldsCount(fields: seq<Field>, n: nat, uses: seq<UseField>)
    requires n <= |fields| && DistinctNames(fields)
    ensures |SelectFields(fields, n, uses)| == |UsedNames(uses, |uses|) * FieldNames(fields, n)|
  {
    hide UsedNames, FieldNames, Rename, DistinctNames;
    if n == 0 {
      NoNames(fields, UsedNames(uses, |uses|));
    } else {
      SelectFieldsCount(fields, n - 1, uses);
      NextName(fields, n);
      RenameIs(uses, |uses|, fields[n - 1].name);
      CountNext(UsedNames(uses, |uses|), FieldNames(fields, n - 1), fields[n - 1].name);
    }
  }

  lemma SubsetOfSameSize(a: set<string>, b: set<string>)
    requires a <= b && |a| == |b|
    ensures a == b
  {
    if a != b {
      var x :| x in b && x !in a;
      SmallerSize(a, b - {x});
    }
  }

  lemma {:induction false} SmallerSize(a: set<string>, b: set<string>)
    requires a <= b
    ensures |a| <= |b|
  {
    assert b == a + (b - a);
    assert a !! (b - a);
  }

  /** The length check passes exactly if the used names are pairwise distinct and all exist. */
  lemma LengthCheck(fields: seq<Field>, uses: seq<UseField>)
    requires DistinctNames(fields)
    ensures |SelectFields(fields, |fields|, uses)| == |uses| <==> DistinctUses(uses, |uses|) && AllExist(uses, fields)
  {
    hide SelectFields;
    var used, names := UsedNames(uses, |uses|), FieldNames(fields, |fields|);
    SelectFieldsCount(fields, |fields|, uses);
    UsedNamesCount(uses, |uses|);
    SmallerSize(used * names, used);
    if |used * names| == |used| {
      SubsetOfSameSize(used * names, used);
    }
    assert used * names == used <==> used <= names;
    assert used <= names <==> AllExist(uses, fields) by {
      if used <= names {
        forall i | 0 <= i < |uses| ensures HasField(fields, uses[i].used) {
          assert uses[i].used in used;
        }
      }
    }
  }

  datatype FieldError = FieldsOk | UsesMalformed | UseInvalid | FieldsMissing

  method GenerateValues(fields: seq<Field>, uses: Json<UseField>) returns (error: FieldError, values: seq<Value>)
    requires DistinctNames(fields)
    ensures error == UsesMalformed <==> uses.Malformed?
    ensures uses.EmptyText? ==> error == FieldsOk && values == []
    ensures uses.List? ==> (error == UseInvalid <==> !AllGiven(uses.items, |uses.items|))
    ensures uses.List? ==>
      (error == FieldsOk <==> AllGiven(uses.items, |uses.items|) && DistinctUses(uses.items, |uses.items|)
                              && AllExist(uses.items, fields))
    ensures uses.List? && error == FieldsOk ==> values == SelectFields(fields, |fields|, uses.items)
  {
    hide DistinctUses, AllExist, DistinctNames;
    values := [];
    if uses.EmptyText? {
      return FieldsOk, values;
    }
    if uses.Malformed? {
      return UsesMalformed, values;
    }
    var m: map<string, string> := map[];
    for i := 0 to |uses.items|
      invariant AllGiven(uses.items, i)
      invariant forall name :: MaybeGet(m, name) == Rename(uses.items, i, name)
    {
      if uses.items[i].used == "" || uses.items[i].renameTo == "" {
        return UseInvalid, values;
      }
      m := m[uses.items[i].used := uses.items[i].renameTo];
    }
    for i := 0 to |fields|
      invariant values == SelectFields(fields, i, uses.items)
    {
      var name := fields[i].name;
      assert MaybeGet(m, name) == Rename(uses.items, |uses.items|, name);
      if name in m {
        values := values + [Value(m[name], fields[i].text)];
      }
    }
    LengthCheck(fields, uses.items);
    error := if |values| != |uses.items| then FieldsMissing else FieldsOk;
  }

  // ---------------------------------------------------------------- evaluateAddonDescriptor

  function NewNames(uses: seq<UseField>): set<string> {
    set i | 0 <= i < |uses| :: uses[i].renameTo
  }

  /** Whatever the repository, the IDs of its values are exactly the new names. */
  lemma SelectedIds(fields: seq<Field>, uses: seq<UseField>)
    requires DistinctNames(fields) && DistinctUses(uses, |uses|) && AllExist(uses, fields)
    ensures Ids(SelectFields(fields, |fields|, uses)) == NewNames(uses)
  {
    hide DistinctNames;
    var values := SelectFields(fields, |fields|, uses);
    forall id | id in NewNames(uses) ensures id in Ids(values) {
      var i :| 0 <= i < |uses| && uses[i].renameTo == id;
      assert uses[i].used in UsedNames(uses, |uses|);
      RenameIs(uses, |uses|, uses[i].used);
      var j :| 0 <= j < |fields| && fields[j].name == uses[i].used;
      assert Rename(uses, |uses|, fields[j].name) == Some(id);
      FieldSelected(fields, |fields|, uses, j);
      assert Value(id, fields[j].text) in values;
    }
    forall k | 0 <= k < |values| ensures values[k].id in NewNames(uses) {
      SelectedRenamed(fields, |fields|, uses, values[k]);
    }
  }

  lemma {:induction false} FieldSelected(fields: seq<Field>, n: nat, uses: seq<UseField>, j: nat)
    requires j < n <= |fields| && Rename(uses, |uses|, fields[j].name).Some?
    ensures Value(Rename(uses, |uses|, fields[j].name).value, fields[j].text) in SelectFields(fields, n, uses)
  {
    hide Rename;
    if j < n - 1 { FieldSelected(fields, n - 1, uses, j); }
  }

  lemma {:induction false} SelectedRenamed(fields: seq<Field>, n: nat, uses: seq<UseField>, v: Value)
    requires n <= |fields| && v in SelectFields(fields, n, uses)
    ensures v.id in NewNames(uses)
  {
    RenameIs(uses, |uses|, fields[n - 1].name);
    hide Rename;
    if v in SelectFields(fields, n - 1, uses) { SelectedRenamed(fields, n - 1, uses, v); }
  }

  datatype EvaluateError = Evaluated | NoDescriptor | DescriptorMalformed | ConditionFailed | ValuesFailed(reason: FieldError)

  /** Every list of values carries exactly the new names as IDs, and none is empty. */
  ghost predicate SameIds(lists: seq<seq<Value>>, uses: Json<UseField>) {
    forall i :: 0 <= i < |lists| ==> uses.List? && Ids(lists[i]) == NewNames(uses.items) && lists[i] != []
  }

  /** Nothing is wrong with the used fields for this repository. */
  ghost predicate FieldsFit(fields: seq<Field>, uses: Json<UseField>) {
    uses.EmptyText?
    || (uses.List? && AllGiven(uses.items, |uses.items|) && DistinctUses(uses.items, |uses.items|) && AllExist(uses.items, fields))
  }

  ghost predicate RepositoryFits(fields: seq<Field>, uses: Json<UseField>, conditions: Json<Condition>) {
    !ConditionsFail(fields, conditions) && (IsUsed(fields, conditions) ==> FieldsFit(fields, uses))
  }

  function ValuesOf(fields: seq<Field>, uses: Json<UseField>): seq<Value> {
    if uses.List? then SelectFields(fields, |fields|, uses.items) else []
  }

  /** The values of the first n repositories: one list per repository that is used and has any. */
  ghost function ListsOf(repos: seq<seq<Field>>, n: nat, uses: Json<UseField>, conditions: Json<Condition>): seq<seq<Value>>
    requires n <= |repos|
  {
    if n == 0 then []
    else if IsUsed(repos[n - 1], conditions) && ValuesOf(repos[n - 1], uses) != []
    then ListsOf(repos, n - 1, uses, conditions) + [ValuesOf(repos[n - 1], uses)]
    else ListsOf(repos, n - 1, uses, conditions)
  }

  ghost predicate AllFit(repos: seq<seq<Field>>, n: nat, uses: Json<UseField>, conditions: Json<Condition>)
    requires n <= |repos|
  {
    forall i :: 0 <= i < n ==> RepositoryFits(repos[i], uses, conditions)
  }

  function Repos(descriptor: Json<seq<Field>>): seq<seq<Field>> {
    if descriptor.List? then descriptor.items else []
  }

  method EvaluateAddonDescriptor(descriptor: Json<seq<Field>>, uses: Json<UseField>, conditions: Json<Condition>)
    returns (error: EvaluateError, lists: seq<seq<Value>>)
    requires descriptor.List? ==> forall i :: 0 <= i < |descriptor.items| ==> DistinctNames(descriptor.items[i])
    ensures error == NoDescriptor <==> descriptor.EmptyText? && !uses.EmptyText?
    ensures error == DescriptorMalformed <==> descriptor.Malformed?
    ensures error.ConditionFailed? || error.ValuesFailed? <==> !AllFit(Repos(descriptor), |Repos(descriptor)|, uses, conditions)
    ensures error == Evaluated ==> lists == ListsOf(Repos(descriptor), |Repos(descriptor)|, uses, conditions)
    ensures SameIds(lists, uses)
  {
    hide DistinctUses, AllExist, DistinctNames, SelectFields, AllGiven, ConditionsFail, IsUsed;
    lists := [];
    if descriptor.EmptyText? && !uses.EmptyText? {
      return NoDescriptor, lists;
    }
    if descriptor.Malformed? {
      return DescriptorMalformed, lists;
    }
    var repos := Repos(descriptor);
    for i := 0 to |repos|
      invariant SameIds(lists, uses)
      invariant AllFit(repos, i, uses, conditions)
      invariant lists == ListsOf(repos, i, uses, conditions)
    {
      var use := CheckCondition(repos[i], conditions);
      if use == ConditionError {
        assert !RepositoryFits(repos[i], uses, conditions);
        return ConditionFailed, lists;
      }
      if use == Use {
        var problem, values := GenerateValues(repos[i], uses);
        if problem != FieldsOk {
          assert !RepositoryFits(repos[i], uses, conditions);
          return ValuesFailed(problem), lists;
        }
        if |values| > 0 {
          SelectedIds(repos[i], uses.items);
          lists := lists + [values];
        }
      }
    }
    error := Evaluated;
  }

  /** No field that was taken over from the add-on descriptor shows up in the final values, for any number
      of repositories and whatever the builds bring. */
  lemma FieldsDoNotLeak(lists: seq<seq<Value>>, uses: Json<UseField>, reply: nat -> BuildReply, values: seq<Value>)
    requires SameIds(lists, uses) && lists != [] && IsFinal(values, lists, reply)
    ensures uses.List? && Ids(values) !! NewNames(uses.items)
  {
    assert Ids(lists[0]) == NewNames(uses.items);
    NothingLeaks(lists, reply, values, NewNames(uses.items));
  }

  // ---------------------------------------------------------------- the step

  /** Why the step ends; `reason` of BuildsFailed tells how the builds ended. */
  datatype StepEnd = StepDone | NotConnected | NotEvaluated(error: EvaluateError) | BuildsFailed(reason: RunResult)

  /** The descriptor can be evaluated. */
  ghost predicate Evaluates(descriptor: Json<seq<Field>>, uses: Json<UseField>, conditions: Json<Condition>) {
    !descriptor.Malformed? && (descriptor.EmptyText? ==> uses.EmptyText?)
    && AllFit(Repos(descriptor), |Repos(descriptor)|, uses, conditions)
  }

  ghost function AllLists(descriptor: Json<seq<Field>>, uses: Json<UseField>, conditions: Json<Condition>): seq<seq<Value>> {
    ListsOf(Repos(descriptor), |Repos(descriptor)|, uses, conditions)
  }

  /** The values handed on hold no field of the add-on descriptor: none that was put into any build. */
  ghost predicate NoneLeaks(values: seq<Value>, lists: seq<seq<Value>>, uses: Json<UseField>) {
    lists != [] ==> uses.List? && Ids(values) !! NewNames(uses.items)
                    && forall i :: 0 <= i < |lists| ==> Ids(values) !! Ids(lists[i])
  }

  /** The inputs of all builds can be merged, and no build fails; without lists there is a single build. */
  ghost predicate BuildsGoWell(lists: seq<seq<Value>>, config: Json<Value>, cpe: Json<Value>, reply: nat -> BuildReply) {
    if lists == [] then Mergeable(config, [], cpe) && !reply(0).failed
    else (forall i :: 0 <= i < |lists| ==> Mergeable(config, lists[i], cpe)) && Failures(reply, |lists|) == 0
  }

  /** Why the builds fail, after `started` of them. */
  ghost predicate BuildsStop(reason: RunResult, lists: seq<seq<Value>>, config: Json<Value>, cpe: Json<Value>,
                             stopOnFirstError: bool, reply: nat -> BuildReply, started: nat)
  {
    !reason.BuildsDone?
    && if lists != [] then RunEnds(reason, config, cpe, lists, stopOnFirstError, reply, started)
       else if Mergeable(config, [], cpe) then started == 1 && reply(0).failed && reason == SingleFailed(reply(0).values)
       else started == 0 && reason.InputsWrong? && MergeFails(reason.reason, config, [], cpe)
  }

  /** Evaluates the descriptor and runs the builds. Values are handed on if and only if the descriptor can be
      evaluated and all builds go well. `started` holds the inputs of every build started. */
  method RunAbapEnvironmentBuild(connects: bool, descriptor: Json<seq<Field>>, uses: Json<UseField>, conditions: Json<Condition>,
                                 config: Json<Value>, cpe: Json<Value>, stopOnFirstError: bool, reply: nat -> BuildReply)
    returns (end: StepEnd, values: seq<Value>, started: seq<seq<Value>>)
    requires descriptor.List? ==> forall i :: 0 <= i < |descriptor.items| ==> DistinctNames(descriptor.items[i])
    ensures end == NotConnected <==> !connects
    ensures end.NotEvaluated? <==> connects && !Evaluates(descriptor, uses, conditions)
    ensures end == StepDone <==>
      connects && Evaluates(descriptor, uses, conditions)
      && BuildsGoWell(AllLists(descriptor, uses, conditions), config, cpe, reply)
    ensures end.BuildsFailed? ==>
      BuildsStop(end.reason, AllLists(descriptor, uses, conditions), config, cpe, stopOnFirstError, reply, |started|)
    ensures end == NotConnected || end.NotEvaluated? ==> started == []
    ensures end == StepDone || end.BuildsFailed? ==>
      var lists := AllLists(descriptor, uses, conditions);
      InputsMatch(started, config, if lists == [] then [[]] else lists, cpe)
    ensures end == StepDone ==>
      var lists := AllLists(descriptor, uses, conditions);
      |started| == (if lists == [] then 1 else |lists|) && NoneLeaks(values, lists, uses)
      && if lists == [] then values == reply(0).values else IsFinal(values, lists, reply)
    ensures end != StepDone ==> values == []
  {
    hide DistinctNames, AllFit, SameIds, Mergeable, MergeFails, IsFinal, InputsMatch, NoneLeaks, ListsOf, Failures;
    if !connects {
      return NotConnected, [], [];
    }
    var error, lists := EvaluateAddonDescriptor(descriptor, uses, conditions);
    if error != Evaluated {
      return NotEvaluated(error), [], [];
    }
    var result;
    result, started := RunBuilds(config, cpe, lists, stopOnFirstError, reply);
    if !result.BuildsDone? {
      NotWell(result, lists, config, cpe, stopOnFirstError, reply, |started|);
      return BuildsFailed(result), [], started;
    }
    values := result.values;
    if lists != [] {
      AllMerged(started, config, lists, cpe);
      NoLeak(lists, uses, reply, values);
    } else {
      NothingPutIn(values, uses);
    }
    end := StepDone;
  }

  lemma AllMerged(started: seq<seq<Value>>, config: Json<Value>, lists: seq<seq<Value>>, cpe: Json<Value>)
    requires InputsMatch(started, config, lists, cpe) && |started| == |lists|
    ensures forall i :: 0 <= i < |lists| ==> Mergeable(config, lists[i], cpe)
  {
    hide Mergeable, Matches;
    assert forall i :: 0 <= i < |lists| ==> Matches(started[i], config, lists[i], cpe);
  }

  lemma NotWell(reason: RunResult, lists: seq<seq<Value>>, config: Json<Value>, cpe: Json<Value>, stopOnFirstError: bool,
                reply: nat -> BuildReply, started: nat)
    requires BuildsStop(reason, lists, config, cpe, stopOnFirstError, reply, started)
    ensures !BuildsGoWell(lists, config, cpe, reply)
  {
    hide Mergeable, MergeFails, IsFinal, Failures;
    if lists != [] {
      match reason
      case InputsWrong(error) => MergeFailsNot(error, config, lists[started], cpe);
      case StoppedAtFirst => FailedStays(reply, started, |lists|);
      case _ =>
    }
  }

  lemma NothingPutIn(values: seq<Value>, uses: Json<UseField>)
    ensures NoneLeaks(values, [], uses)
  {
  }

  lemma NoLeak(lists: seq<seq<Value>>, uses: Json<UseField>, reply: nat -> BuildReply, values: seq<Value>)
    requires SameIds(lists, uses) && lists != [] && IsFinal(values, lists, reply)
    ensures NoneLeaks(values, lists, uses)
  {
    FieldsDoNotLeak(lists, uses, reply, values);
    hide Ids, NewNames, IsFinal;
  }

  lemma {:induction false} FailedStays(reply: nat -> BuildReply, n: nat, total: nat)
    requires 0 < n <= total && reply(n - 1).failed
    ensures Failures(reply, total) > 0
  {
    if n < total { FailedStays(reply, n, total - 1); }
  }

  // ---------------------------------------------------------------- fields, conditions and lists

  /** The text of a field is that of the one with its name. */
  lemma {:induction false} GetFieldIs(fields: seq<Field>, n: nat, i: nat)
    requires i < n <= |fields| && forall j :: i < j < n ==> fields[j].name != fields[i].name
    ensures GetField(fields, n, fields[i].name) == fields[i].text
  {
    if i < n - 1 { GetFieldIs(fields, n - 1, i); }
  }

  /** A field that does not exist reads as what reflection prints for it. */
  lemma GetFieldMissing(fields: seq<Field>, n: nat, name: string)
    requires n <= |fields| && forall i :: 0 <= i < n ==> fields[i].name != name
    ensures GetField(fields, n, name) == "<invalid Value>"
  {
  }

  /** A condition is valid if all its parts are given and the operator is one of two, and it is met if the field's text is
      equal or unequal to the given one. */
  lemma ConditionMeans(c: Condition, fields: seq<Field>)
    ensures IsValid(c) <==> c.field != "" && c.text != "" && c.operator in {"==", "!="}
    ensures IsValid(c) ==>
      (IsMet(c, fields) <==> (c.operator == "==" <==> GetField(fields, |fields|, c.field) == c.text))
  {
    hide GetField;
  }

  /** The positions of the fields whose values are put in. */
  ghost function Chosen(fields: seq<Field>, n: nat, uses: seq<UseField>): (idx: seq<nat>)
    requires n <= |fields|
    ensures |idx| == |SelectFields(fields, n, uses)|
  {
    if n == 0 then []
    else if Rename(uses, |uses|, fields[n - 1].name).Some? then Chosen(fields, n - 1, uses) + [n - 1]
    else Chosen(fields, n - 1, uses)
  }

  /** The output is in field order: each value has the text of its field, and as ID the new name of a use of it. */
  lemma {:induction false} ChosenAt(fields: seq<Field>, n: nat, uses: seq<UseField>, k: nat)
    requires n <= |fields| && k < |Chosen(fields, n, uses)|
    ensures var i, v := Chosen(fields, n, uses)[k], SelectFields(fields, n, uses)[k];
            i < n && v.text == fields[i].text && UseField(fields[i].name, v.id) in uses
    ensures forall l :: 0 <= l < k ==> Chosen(fields, n, uses)[l] < Chosen(fields, n, uses)[k]
  {
    if k < |Chosen(fields, n - 1, uses)| {
      ChosenAt(fields, n - 1, uses, k);
    } else {
      RenameIs(uses, |uses|, fields[n - 1].name);
      forall l | 0 <= l < k ensures Chosen(fields, n, uses)[l] < n - 1 {
        ChosenAt(fields, n - 1, uses, l);
      }
    }
  }

  /** The positions of the repositories whose lists are handed on: those that are used and have any value. */
  ghost function Listed(repos: seq<seq<Field>>, n: nat, uses: Json<UseField>, conditions: Json<Condition>): (idx: seq<nat>)
    requires n <= |repos|
    ensures |idx| == |ListsOf(repos, n, uses, conditions)|
  {
    if n == 0 then []
    else if IsUsed(repos[n - 1], conditions) && ValuesOf(repos[n - 1], uses) != [] then Listed(repos, n - 1, uses, conditions) + [n - 1]
    else Listed(repos, n - 1, uses, conditions)
  }

  /** The lists are in the order of the repositories, each the selection of its repository's fields. */
  lemma {:induction false} ListedAt(repos: seq<seq<Field>>, n: nat, uses: Json<UseField>, conditions: Json<Condition>, k: nat)
    requires n <= |repos| && k < |Listed(repos, n, uses, conditions)|
    ensures var i := Listed(repos, n, uses, conditions)[k];
            && i < n && uses.List? && IsUsed(repos[i], conditions)
            && ListsOf(repos, n, uses, conditions)[k] == SelectFields(repos[i], |repos[i]|, uses.items)
    ensures forall l :: 0 <= l < k ==> Listed(repos, n, uses, conditions)[l] < Listed(repos, n, uses, conditions)[k]
  {
    hide IsUsed, SelectFields;
    if k < |Listed(repos, n - 1, uses, conditions)| {
      ListedAt(repos, n - 1, uses, conditions, k);
    } else {
      forall l | 0 <= l < k ensures Listed(repos, n, uses, conditions)[l] < n - 1 {
        ListedAt(repos, n - 1, uses, conditions, l);
      }
    }
  }

  /** No repository that is used and has values is left out. */
  lemma {:induction false} ListedComplete(repos: seq<seq<Field>>, n: nat, uses: Json<UseField>, conditions: Json<Condition>, i: nat)
    requires i < n <= |repos| && IsUsed(repos[i], conditions) && uses.List? && SelectFields(repos[i], |repos[i]|, uses.items) != []
    ensures i in Listed(repos, n, uses, conditions)
  {
    hide IsUsed, SelectFields;
    if i < n - 1 { ListedComplete(repos, n - 1, uses, conditions, i); }
  }

  /** A repository is used exactly if all conditions are valid and met; the check fails at the first that is invalid, if
      all before it are met. */
  lemma ConditionsMean(fields: seq<Field>, conditions: Json<Condition>)
    ensures IsUsed(fields, conditions) <==>
      conditions.EmptyText?
      || (conditions.List? && forall i :: 0 <= i < |conditions.items| ==> IsValid(conditions.items[i]) && IsMet(conditions.items[i], fields))
    ensures ConditionsFail(fields, conditions) <==>
      conditions.Malformed?
      || (conditions.List?
          && exists k :: 0 <= k < |conditions.items| && !IsValid(conditions.items[k])
                         && forall i :: 0 <= i < k ==> IsValid(conditions.items[i]) && IsMet(conditions.items[i], fields))
  {
    hide IsValid, IsMet;
    assert conditions.List? ==> forall k :: 0 <= k <= |conditions.items| ==>
      (AllMet(conditions.items, k, fields) <==>
         forall i :: 0 <= i < k ==> IsValid(conditions.items[i]) && IsMet(conditions.items[i], fields));
    hide AllMet;
  }

  /** The used fields fit a repository exactly if there are none, or all entries are filled, no field is used twice, and
      each is one of the repository's. */
  lemma FieldsFitMeans(fields: seq<Field>, uses: Json<UseField>)
    ensures FieldsFit(fields, uses) <==>
      uses.EmptyText?
      || (uses.List?
          && (forall i :: 0 <= i < |uses.items| ==> uses.items[i].used != "" && uses.items[i].renameTo != "")
          && (forall i, j :: 0 <= i < j < |uses.items| ==> uses.items[i].used != uses.items[j].used)
          && (forall i :: 0 <= i < |uses.items| ==> HasField(fields, uses.items[i].used)))
  {
    hide HasField;
  }

  lemma HasFieldMeans(fields: seq<Field>, name: string)
    ensures HasField(fields, name) <==> exists f :: f in fields && f.name == name
  {
    if f :| f in fields && f.name == name {
      var j :| 0 <= j < |fields| && fields[j] == f;
      assert fields[j].name == name;
    }
  }
}
