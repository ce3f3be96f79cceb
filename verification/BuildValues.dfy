/** abapEnvironmentBuild: the values handed to a build are merged from three sources, and the values of
    several builds are merged again. */
module BuildValues {
  import opened Text

  datatype Value = Value(id: string, text: string)

  /** A JSON text holding a list: empty text, no JSON, or the list. */
  datatype Json<T> = EmptyText | Malformed | List(items: seq<T>)

  predicate Reserved(id: string) {
    id == "PHASE" || id == "BUILD_FRAMEWORK_MODE"
  }

  // ---------------------------------------------------------------- lookup in lists

  /** The text of the first entry with this ID among the first n, reserved or not. */
  function AnyFirst(values: seq<Value>, n: nat, id: string): Option<string>
    requires n <= |values|
  {
    if n == 0 then None
    else if AnyFirst(values, n - 1, id).Some? then AnyFirst(values, n - 1, id)
    else if values[n - 1].id == id then Some(values[n - 1].text)
    else None
  }

  lemma {:induction false} AnyFirstIs(values: seq<Value>, n: nat, id: string)
    requires n <= |values|
    ensures AnyFirst(values, n, id).Some? <==> exists i :: 0 <= i < n && values[i].id == id
    ensures AnyFirst(values, n, id).Some? ==>
      exists i :: 0 <= i < n && values[i] == Value(id, AnyFirst(values, n, id).value)
                  && forall j :: 0 <= j < i ==> values[j].id != id
  {
    if n > 0 { AnyFirstIs(values, n - 1, id); }
  }

  /** The text of the first unreserved entry with this ID among the first n. */
  function First(values: seq<Value>, n: nat, id: string): Option<string>
    requires n <= |values|
  {
    if Reserved(id) then None else AnyFirst(values, n, id)
  }

  lemma FirstIs(values: seq<Value>, n: nat, id: string)
    requires n <= |values|
    ensures First(values, n, id).Some? <==> !Reserved(id) && exists i :: 0 <= i < n && values[i].id == id
    ensures First(values, n, id).Some? ==>
      exists i :: 0 <= i < n && values[i] == Value(id, First(values, n, id).value)
                  && forall j :: 0 <= j < i ==> values[j].id != id
  {
    AnyFirstIs(values, n, id);
  }

  /** The IDs of the unreserved entries are pairwise distinct and none is taken. */
  ghost predicate Fresh(values: seq<Value>, n: nat, taken: map<string, string>)
    requires n <= |values|
  {
    (forall i :: 0 <= i < n && !Reserved(values[i].id) ==> values[i].id !in taken)
    && (forall i, j :: 0 <= i < j < n && !Reserved(values[i].id) ==> values[i].id != values[j].id)
  }

  /** A map extended by the entries of a list it does not hold yet; the first entry for an ID wins. */
  ghost predicate Extends(m: map<string, string>, was: map<string, string>, values: seq<Value>, n: nat)
    requires n <= |values|
  {
    forall id :: MaybeGet(m, id) == if id in was then Some(was[id]) else First(values, n, id)
  }

  function MaybeGet(m: map<string, string>, id: string): Option<string> {
    if id in m then Some(m[id]) else None
  }

  /** A config list as the step accepts it: no empty ID or text, no ID twice. */
  ghost predicate WellFormed(values: seq<Value>, n: nat)
    requires n <= |values|
  {
    (forall i :: 0 <= i < n ==> values[i].id != "" && values[i].text != "")
    && (forall i, j :: 0 <= i < j < n ==> values[i].id != values[j].id)
  }

  /** The list as a map: exactly its entries. */
  ghost predicate Holds(m: map<string, string>, values: seq<Value>, n: nat)
    requires n <= |values|
  {
    (forall i :: 0 <= i < n ==> values[i].id in m && m[values[i].id] == values[i].text)
    && (forall id :: id in m ==> exists i :: 0 <= i < n && values[i].id == id)
  }

  /** Each entry of the map once, in some order. */
  ghost predicate Lists(values: seq<Value>, m: map<string, string>) {
    (forall i, j :: 0 <= i < j < |values| ==> values[i].id != values[j].id)
    && (forall v :: v in values <==> v.id in m && m[v.id] == v.text)
  }

  // ---------------------------------------------------------------- valuesEvaluator

  datatype InitError = Initialized | NoJson | WrongFormat | NotUnique(id: string)

  class ValuesEvaluator {
    var m: map<string, string>

    constructor ()
      ensures m == map[]
    {
      m := map[];
    }

    method Initialize(config: Json<Value>) returns (error: InitError)
      modifies this
      ensures error == NoJson <==> config.Malformed?
      ensures error == Initialized && config.EmptyText? ==> m == map[]
      ensures config.EmptyText? ==> error == Initialized
      ensures config.List? ==> (error == Initialized <==> WellFormed(config.items, |config.items|))
      ensures error == Initialized && config.List? ==> Holds(m, config.items, |config.items|)
    {
      hide WellFormed, Holds;
      if config.Malformed? {
        return NoJson;
      }
      m := map[];
      if config.EmptyText? {
        return Initialized;
      }
      var values := config.items;
      InitStart(values);
      for i := 0 to |values|
        invariant WellFormed(values, i) && Holds(m, values, i)
      {
        InitStep(m, values, i);
        if values[i].id == "" || values[i].text == "" {
          return WrongFormat;
        }
        if values[i].id in m {
          return NotUnique(values[i].id);
        }
        m := m[values[i].id := values[i].text];
      }
      error := Initialized;
    }

    /** Reserved IDs are passed over. An ID that is present is an error, or else keeps its value. */
    method AppendValuesIfNotPresent(values: seq<Value>, throwErrorIfPresent: bool) returns (ok: bool)
      modifies this
      ensures !throwErrorIfPresent ==> ok
      ensures throwErrorIfPresent ==> (ok <==> Fresh(values, |values|, old(m)))
      ensures ok ==> Extends(m, old(m), values, |values|)
    {
      ghost var was := m;
      ok := true;
      for i := 0 to |values|
        invariant throwErrorIfPresent ==> Fresh(values, i, was)
        invariant Extends(m, was, values, i)
      {
        AppendStep(m, was, values, i);
        if !Reserved(values[i].id) {
          if values[i].id in m {
            if throwErrorIfPresent {
              return false;
            }
          } else {
            m := m[values[i].id := values[i].text];
          }
        }
      }
    }

    method AppendStringValuesIfNotPresent(json: Json<Value>, throwErrorIfPresent: bool) returns (ok: bool)
      modifies this
      ensures json.Malformed? ==> !ok && m == old(m)
      ensures json.EmptyText? ==> ok && m == old(m)
      ensures json.List? && !throwErrorIfPresent ==> ok
      ensures json.List? && throwErrorIfPresent ==> (ok <==> Fresh(json.items, |json.items|, old(m)))
      ensures json.List? && ok ==> Extends(m, old(m), json.items, |json.items|)
    {
      if json.Malformed? {
        return false;
      }
      if json.EmptyText? {
        return true;
      }
      ok := AppendValuesIfNotPresent(json.items, throwErrorIfPresent);
    }

    /** The order of the slice is that of the map iteration: any order. */
    method GenerateValueSlice() returns (values: seq<Value>)
      ensures Lists(values, m)
    {
      values := [];
      var todo := m.Keys;
      while todo != {}
        invariant todo <= m.Keys
        invariant forall i, j :: 0 <= i < j < |values| ==> values[i].id != values[j].id
        invariant forall v :: v in values <==> v.id in m && v.id !in todo && m[v.id] == v.text
        decreases |todo|
      {
        var id :| id in todo;
        values := values + [Value(id, m[id])];
        todo := todo - {id};
      }
    }
  }

  lemma InitStart(values: seq<Value>)
    ensures WellFormed(values, 0) && Holds(map[], values, 0)
  {
  }

  /** One more entry of the config: accepted or not, for the whole list. */
  lemma InitStep(m: map<string, string>, values: seq<Value>, i: nat)
    requires i < |values| && WellFormed(values, i) && Holds(m, values, i)
    ensures values[i].id == "" || values[i].text == "" || values[i].id in m ==> !WellFormed(values, |values|)
    ensures values[i].id != "" && values[i].text != "" && values[i].id !in m ==>
      WellFormed(values, i + 1) && Holds(m[values[i].id := values[i].text], values, i + 1)
  {
  }

  /** Whether the next entry is new to the map, and what it adds. */
  lemma AppendStep(m: map<string, string>, was: map<string, string>, values: seq<Value>, i: nat)
    requires i < |values| && Extends(m, was, values, i)
    ensures var v := values[i];
            !Reserved(v.id) && Fresh(values, i, was) ==>
              (v.id in m <==> v.id in was || exists j :: 0 <= j < i && values[j].id == v.id)
    ensures var v := values[i];
            if Reserved(v.id) || v.id in m then Extends(m, was, values, i + 1)
            else Extends(m[v.id := v.text], was, values, i + 1)
    ensures values[i].id in m && !Reserved(values[i].id) ==> !Fresh(values, i + 1, was)
    ensures (Reserved(values[i].id) || values[i].id !in m) && Fresh(values, i, was) ==> Fresh(values, i + 1, was)
  {
    var v := values[i];
    FirstIs(values, i, v.id);
    assert MaybeGet(m, v.id) == if v.id in was then Some(was[v.id]) else First(values, i, v.id);
  }

  // ---------------------------------------------------------------- the input values of one build

  datatype MergeError = Merged | ConfigWrong(reason: InitError) | RepoValuePresent | CpeWrong

  /** The config as a list; reserved IDs may come from here only. */
  function Items(json: Json<Value>): seq<Value> {
    if json.List? then json.items else []
  }

  function ConfigText(config: Json<Value>, id: string): Option<string> {
    AnyFirst(Items(config), |Items(config)|, id)
  }

  /** The reference: look an ID up in the config, else in the repository's values, else in the values of
      the common pipeline environment. */
  function LookUp(config: Json<Value>, repoValues: seq<Value>, cpe: Json<Value>, id: string): Option<string> {
    if ConfigText(config, id).Some? then ConfigText(config, id)
    else if First(repoValues, |repoValues|, id).Some? then First(repoValues, |repoValues|, id)
    else First(Items(cpe), |Items(cpe)|, id)
  }

  /** Exactly when the three sources can be merged. */
  ghost predicate Mergeable(config: Json<Value>, repoValues: seq<Value>, cpe: Json<Value>) {
    !config.Malformed? && WellFormed(Items(config), |Items(config)|)
    && RepoFits(config, repoValues)
    && !cpe.Malformed?
  }

  /** The repository's unreserved IDs are pairwise distinct and not in the config. */
  ghost predicate RepoFits(config: Json<Value>, repoValues: seq<Value>) {
    (forall i :: 0 <= i < |repoValues| && !Reserved(repoValues[i].id) ==> ConfigText(config, repoValues[i].id) == None)
    && (forall i, j :: 0 <= i < j < |repoValues| && !Reserved(repoValues[i].id) ==> repoValues[i].id != repoValues[j].id)
  }

  /** What an error of the merge means: the first source at fault. */
  ghost predicate MergeFails(error: MergeError, config: Json<Value>, repoValues: seq<Value>, cpe: Json<Value>) {
    match error
    case Merged => false
    case ConfigWrong(_) => config.Malformed? || !WellFormed(Items(config), |Items(config)|)
    case RepoValuePresent =>
      !config.Malformed? && WellFormed(Items(config), |Items(config)|) && !RepoFits(config, repoValues)
    case CpeWrong =>
      !config.Malformed? && WellFormed(Items(config), |Items(config)|) && RepoFits(config, repoValues) && cpe.Malformed?
  }

  /** One entry per ID that can be looked up, carrying the text found. */
  ghost predicate Matches(values: seq<Value>, config: Json<Value>, repoValues: seq<Value>, cpe: Json<Value>) {
    (forall i, j :: 0 <= i < j < |values| ==> values[i].id != values[j].id)
    && (forall v :: v in values <==> LookUp(config, repoValues, cpe, v.id) == Some(v.text))
  }

  lemma HeldIsConfig(m: map<string, string>, config: Json<Value>)
    requires WellFormed(Items(config), |Items(config)|) && Holds(m, Items(config), |Items(config)|)
    ensures forall id :: MaybeGet(m, id) == ConfigText(config, id)
  {
    forall id ensures MaybeGet(m, id) == ConfigText(config, id) {
      AnyFirstIs(Items(config), |Items(config)|, id);
    }
  }

  /** The merge of config, repository and pipeline values refines the lookup. */
  method GenerateValuesWithAddonDescriptor(config: Json<Value>, repoValues: seq<Value>, cpe: Json<Value>)
    returns (error: MergeError, values: seq<Value>)
    ensures error == Merged <==> Mergeable(config, repoValues, cpe)
    ensures error == Merged ==> Matches(values, config, repoValues, cpe)
    ensures error.ConfigWrong? <==> config.Malformed? || !WellFormed(Items(config), |Items(config)|)
    ensures error != Merged ==> MergeFails(error, config, repoValues, cpe)
    ensures error != Merged ==> values == []
  {
    hide WellFormed, Holds, Extends, Fresh, Lists, Matches, RepoFits;
    values := [];
    var vE := new ValuesEvaluator();
    var init := vE.Initialize(config);
    EmptyIsWellFormed();
    if init != Initialized {
      return ConfigWrong(init), [];
    }
    ghost var m0 := vE.m;
    HeldIsConfig(m0, config);
    var ok := vE.AppendValuesIfNotPresent(repoValues, true);
    FreshIsFit(m0, config, repoValues);
    if !ok {
      return RepoValuePresent, [];
    }
    ghost var m1 := vE.m;
    ok := vE.AppendStringValuesIfNotPresent(cpe, false);
    if !ok {
      return CpeWrong, [];
    }
    values := vE.GenerateValueSlice();
    MergedIsLookUp(m0, m1, vE.m, config, repoValues, cpe, values);
    error := Merged;
  }

  lemma EmptyIsWellFormed()
    ensures WellFormed([], 0) && Holds(map[], [], 0)
  {
  }

  lemma FreshIsFit(m: map<string, string>, config: Json<Value>, repoValues: seq<Value>)
    requires forall id :: MaybeGet(m, id) == ConfigText(config, id)
    ensures Fresh(repoValues, |repoValues|, m) <==> RepoFits(config, repoValues)
  {
    assert forall i :: 0 <= i < |repoValues| ==>
      MaybeGet(m, repoValues[i].id) == ConfigText(config, repoValues[i].id);
    hide AnyFirst;
  }

  lemma MergedIsLookUp(m0: map<string, string>, m1: map<string, string>, m2: map<string, string>,
                       config: Json<Value>, repoValues: seq<Value>, cpe: Json<Value>, values: seq<Value>)
    requires forall id :: MaybeGet(m0, id) == ConfigText(config, id)
    requires Extends(m1, m0, repoValues, |repoValues|)
    requires if cpe.List? then Extends(m2, m1, cpe.items, |cpe.items|) else m2 == m1
    requires Lists(values, m2)
    ensures Matches(values, config, repoValues, cpe)
  {
    hide First, AnyFirst;
    forall id ensures MaybeGet(m2, id) == LookUp(config, repoValues, cpe, id) {
      assert MaybeGet(m0, id) == ConfigText(config, id);
      assert MaybeGet(m1, id) == if id in m0 then Some(m0[id]) else First(repoValues, |repoValues|, id);
      NoFirstOf([], id);
    }
    forall v ensures v in values <==> LookUp(config, repoValues, cpe, v.id) == Some(v.text) {
      assert MaybeGet(m2, v.id) == LookUp(config, repoValues, cpe, v.id);
    }
  }

  lemma NoFirstOf(values: seq<Value>, id: string)
    ensures First(values, 0, id) == None
  {
  }

  // ---------------------------------------------------------------- several builds

  function Ids(values: seq<Value>): set<string> {
    set i | 0 <= i < |values| :: values[i].id
  }

  /** Those of the first n values whose ID is not to be dropped, in order. */
  function Kept(values: seq<Value>, n: nat, drop: set<string>): seq<Value>
    requires n <= |values|
  {
    if n == 0 then []
    else if values[n - 1].id in drop then Kept(values, n - 1, drop)
    else Kept(values, n - 1, drop) + [values[n - 1]]
  }

  lemma {:induction false} KeptDrops(values: seq<Value>, n: nat, drop: set<string>, v: Value)
    requires n <= |values|
    ensures v in Kept(values, n, drop) <==> v.id !in drop && exists i :: 0 <= i < n && values[i] == v
  {
    if n > 0 { KeptDrops(values, n - 1, drop, v); }
  }

  method RemoveAddonDescriptorValues(fromBuild: seq<Value>, fromDescriptor: seq<Value>) returns (values: seq<Value>)
    ensures values == Kept(fromBuild, |fromBuild|, Ids(fromDescriptor))
  {
    var drop: map<string, string> := map[];
    for i := 0 to |fromDescriptor|
      invariant drop.Keys == set j | 0 <= j < i :: fromDescriptor[j].id
    {
      drop := drop[fromDescriptor[i].id := fromDescriptor[i].text];
    }
    values := [];
    for i := 0 to |fromBuild|
      invariant values == Kept(fromBuild, i, drop.Keys)
    {
      if fromBuild[i].id !in drop {
        values := values + [fromBuild[i]];
      }
    }
  }

  /** What a build run ends with: a failed one may still bring values. */
  datatype BuildReply = BuildReply(values: seq<Value>, failed: bool)

  /** The values of a build without those its repository put in. */
  function Own(list: seq<Value>, reply: BuildReply): seq<Value> {
    Kept(reply.values, |reply.values|, Ids(list))
  }

  function OwnText(list: seq<Value>, reply: BuildReply, id: string): Option<string> {
    First(Own(list, reply), |Own(list, reply)|, id)
  }

  /** The reference: the text from the earliest of the first n builds that brought a value for this ID. */
  function FinalText(lists: seq<seq<Value>>, reply: nat -> BuildReply, n: nat, id: string): Option<string>
    requires n <= |lists|
  {
    if n == 0 then None
    else if FinalText(lists, reply, n - 1, id).Some? then FinalText(lists, reply, n - 1, id)
    else OwnText(lists[n - 1], reply(n - 1), id)
  }

  function Failures(reply: nat -> BuildReply, n: nat): nat {
    if n == 0 then 0 else Failures(reply, n - 1) + if reply(n - 1).failed then 1 else 0
  }

  ghost predicate MergesFinal(m: map<string, string>, lists: seq<seq<Value>>, reply: nat -> BuildReply, n: nat)
    requires n <= |lists|
  {
    forall id :: MaybeGet(m, id) == FinalText(lists, reply, n, id)
  }

  ghost predicate IsFinal(values: seq<Value>, lists: seq<seq<Value>>, reply: nat -> BuildReply) {
    (forall i, j :: 0 <= i < j < |values| ==> values[i].id != values[j].id)
    && (forall v :: v in values <==> FinalText(lists, reply, |lists|, v.id) == Some(v.text))
  }

  datatype RunResult =
    | BuildsDone(values: seq<Value>)
    | SingleFailed(values: seq<Value>)
    | InputsWrong(reason: MergeError)
    | StoppedAtFirst
    | SomeFailed(values: seq<Value>, failures: nat, total: nat)

  /** The inputs of the builds started so far: each the merge for its own repository. */
  ghost predicate InputsMatch(started: seq<seq<Value>>, config: Json<Value>, lists: seq<seq<Value>>, cpe: Json<Value>) {
    |started| <= |lists|
    && forall i :: 0 <= i < |started| ==>
         Mergeable(config, lists[i], cpe) && Matches(started[i], config, lists[i], cpe)
  }

  /** How a run over all repositories ends. */
  ghost predicate RunEnds(result: RunResult, config: Json<Value>, cpe: Json<Value>, lists: seq<seq<Value>>,
                          stopOnFirstError: bool, reply: nat -> BuildReply, started: nat)
  {
    match result
    case BuildsDone(values) => started == |lists| && Failures(reply, |lists|) == 0 && IsFinal(values, lists, reply)
    case InputsWrong(reason) =>
      started < |lists| && MergeFails(reason, config, lists[started], cpe) && (stopOnFirstError ==> Failures(reply, started) == 0)
    case StoppedAtFirst =>
      stopOnFirstError && 0 < started <= |lists| && reply(started - 1).failed && Failures(reply, started - 1) == 0
    case SomeFailed(values, failures, total) =>
      !stopOnFirstError && started == |lists| == total > 0
      && failures == Failures(reply, total) > 0 && IsFinal(values, lists, reply)
    case SingleFailed(_) => false
  }

  /** Without an add-on descriptor there is a single build. */
  method RunSingle(config: Json<Value>, cpe: Json<Value>, reply: BuildReply)
    returns (result: RunResult, started: seq<seq<Value>>)
    ensures InputsMatch(started, config, [[]], cpe)
    ensures if Mergeable(config, [], cpe)
            then |started| == 1 && result == if reply.failed then SingleFailed(reply.values) else BuildsDone(reply.values)
            else started == [] && result.InputsWrong? && MergeFails(result.reason, config, [], cpe)
  {
    hide Mergeable, Matches, MergeFails;
    var error, values := GenerateValuesWithAddonDescriptor(config, [], cpe);
    if error != Merged {
      return InputsWrong(error), [];
    }
    result := if reply.failed then SingleFailed(reply.values) else BuildsDone(reply.values);
    started := [values];
  }

  method RunBuilds(config: Json<Value>, cpe: Json<Value>, lists: seq<seq<Value>>, stopOnFirstError: bool,
                   reply: nat -> BuildReply)
    returns (result: RunResult, started: seq<seq<Value>>)
    ensures InputsMatch(started, config, if lists == [] then [[]] else lists, cpe)
    ensures lists == [] ==>
      if Mergeable(config, [], cpe)
      then |started| == 1 && result == if reply(0).failed then SingleFailed(reply(0).values) else BuildsDone(reply(0).values)
      else started == [] && result.InputsWrong? && MergeFails(result.reason, config, [], cpe)
    ensures lists != [] ==> RunEnds(result, config, cpe, lists, stopOnFirstError, reply, |started|)
  {
    hide Mergeable, MergeFails, Matches, Extends, Lists, MergesFinal, FinalText, Own, InputsMatch, IsFinal;
    if lists == [] {
      result, started := RunSingle(config, cpe, reply(0));
      return;
    }
    started := [];
    var failures := 0;
    var vE := new ValuesEvaluator();
    FinalStart(lists, reply);
    InputsStart(config, lists, cpe);
    for i := 0 to |lists|
      invariant |started| == i && InputsMatch(started, config, lists, cpe)
      invariant failures == Failures(reply, i) && (stopOnFirstError ==> failures == 0)
      invariant MergesFinal(vE.m, lists, reply, i)
    {
      var error, values := GenerateValuesWithAddonDescriptor(config, lists[i], cpe);
      if error != Merged {
        return InputsWrong(error), started;
      }
      InputsStep(started, config, lists, cpe, values);
      started := started + [values];
      if reply(i).failed {
        if stopOnFirstError {
          return StoppedAtFirst, started;
        }
        failures := failures + 1;
      }
      var own := RemoveAddonDescriptorValues(reply(i).values, lists[i]);
      ghost var was := vE.m;
      var ok := vE.AppendValuesIfNotPresent(own, false);
      if !ok {
        failures := failures + 1;
      }
      OwnIs(lists[i], reply(i), own);
      FinalStep(vE.m, was, lists, reply, i);
    }
    var final := vE.GenerateValueSlice();
    FinalListed(final, vE.m, lists, reply);
    result := if failures > 0 then SomeFailed(final, failures, |lists|) else BuildsDone(final);
  }

  lemma MergeFailsNot(error: MergeError, config: Json<Value>, repoValues: seq<Value>, cpe: Json<Value>)
    requires MergeFails(error, config, repoValues, cpe)
    ensures !Mergeable(config, repoValues, cpe)
  {
    hide WellFormed, RepoFits;
  }

  lemma InputsStart(config: Json<Value>, lists: seq<seq<Value>>, cpe: Json<Value>)
    ensures InputsMatch([], config, lists, cpe)
  {
  }

  lemma InputsStep(started: seq<seq<Value>>, config: Json<Value>, lists: seq<seq<Value>>, cpe: Json<Value>, values: seq<Value>)
    requires InputsMatch(started, config, lists, cpe) && |started| < |lists|
    requires Mergeable(config, lists[|started|], cpe) && Matches(values, config, lists[|started|], cpe)
    ensures InputsMatch(started + [values], config, lists, cpe)
  {
    hide Mergeable, Matches;
  }

  lemma OwnIs(list: seq<Value>, reply: BuildReply, own: seq<Value>)
    requires own == Kept(reply.values, |reply.values|, Ids(list))
    ensures own == Own(list, reply)
  {
  }

  lemma FinalStart(lists: seq<seq<Value>>, reply: nat -> BuildReply)
    ensures MergesFinal(map[], lists, reply, 0)
  {
  }

  lemma FinalStep(m: map<string, string>, was: map<string, string>, lists: seq<seq<Value>>, reply: nat -> BuildReply, i: nat)
    requires i < |lists| && MergesFinal(was, lists, reply, i)
    requires Extends(m, was, Own(lists[i], reply(i)), |Own(lists[i], reply(i))|)
    ensures MergesFinal(m, lists, reply, i + 1)
  {
    hide Own, First;
    forall id ensures MaybeGet(m, id) == FinalText(lists, reply, i + 1, id) {
      assert MaybeGet(was, id) == FinalText(lists, reply, i, id);
    }
  }

  lemma FinalListed(values: seq<Value>, m: map<string, string>, lists: seq<seq<Value>>, reply: nat -> BuildReply)
    requires MergesFinal(m, lists, reply, |lists|) && Lists(values, m)
    ensures IsFinal(values, lists, reply)
  {
    hide FinalText;
    forall v ensures v in values <==> FinalText(lists, reply, |lists|, v.id) == Some(v.text) {
      assert MaybeGet(m, v.id) == FinalText(lists, reply, |lists|, v.id);
    }
  }

  /** Where a final value comes from: some build brought it, its repository did not put it in, and no
      earlier build brought a value for its ID. */
  lemma {:induction false} FinalComesFrom(lists: seq<seq<Value>>, reply: nat -> BuildReply, n: nat, id: string)
    returns (i: nat)
    requires n <= |lists| && FinalText(lists, reply, n, id).Some?
    ensures i < n && OwnText(lists[i], reply(i), id) == FinalText(lists, reply, n, id)
    ensures id !in Ids(lists[i]) && id != "PHASE" && id != "BUILD_FRAMEWORK_MODE"
    ensures FinalText(lists, reply, n, id) == AnyFirst(reply(i).values, |reply(i).values|, id)
    ensures forall j :: 0 <= j < i ==> OwnText(lists[j], reply(j), id) == None
  {
    hide OwnText;
    if FinalText(lists, reply, n - 1, id).Some? {
      i := FinalComesFrom(lists, reply, n - 1, id);
    } else {
      i := n - 1;
      OwnTextIs(lists[i], reply(i), id);
      NoneBefore(lists, reply, i, id);
    }
  }

  lemma {:induction false} NoneBefore(lists: seq<seq<Value>>, reply: nat -> BuildReply, n: nat, id: string)
    requires n <= |lists| && FinalText(lists, reply, n, id) == None
    ensures forall j :: 0 <= j < n ==> OwnText(lists[j], reply(j), id) == None
  {
    hide OwnText;
    if n > 0 { NoneBefore(lists, reply, n - 1, id); }
  }

  /** Dropping other IDs leaves the first text of an ID the first. */
  lemma {:induction false} FirstOfKept(values: seq<Value>, n: nat, drop: set<string>, id: string)
    requires n <= |values|
    ensures var kept := Kept(values, n, drop);
            AnyFirst(kept, |kept|, id) == if id in drop then None else AnyFirst(values, n, id)
  {
    if n > 0 {
      FirstOfKept(values, n - 1, drop, id);
      if values[n - 1].id !in drop {
        FirstOneMore(Kept(values, n - 1, drop), values[n - 1], id);
      }
    }
  }

  lemma FirstOneMore(values: seq<Value>, v: Value, id: string)
    ensures AnyFirst(values + [v], |values| + 1, id)
         == if AnyFirst(values, |values|, id).Some? then AnyFirst(values, |values|, id)
            else if v.id == id then Some(v.text) else None
  {
    FirstOfFront(values, v, |values|, id);
  }

  lemma {:induction false} FirstOfFront(values: seq<Value>, v: Value, n: nat, id: string)
    requires n <= |values|
    ensures AnyFirst(values + [v], n, id) == AnyFirst(values, n, id)
  {
    if n > 0 { FirstOfFront(values, v, n - 1, id); }
  }

  lemma OwnTextIs(list: seq<Value>, reply: BuildReply, id: string)
    requires OwnText(list, reply, id).Some?
    ensures id !in Ids(list) && !Reserved(id) && OwnText(list, reply, id) == AnyFirst(reply.values, |reply.values|, id)
  {
    FirstOfKept(reply.values, |reply.values|, Ids(list), id);
    var own := Own(list, reply);
    FirstIs(own, |own|, id);
    var i :| 0 <= i < |own| && own[i] == Value(id, OwnText(list, reply, id).value);
    KeptDrops(reply.values, |reply.values|, Ids(list), own[i]);
    assert own[i] in own;
  }

  /** No value that a repository put in leaks into the final values if all repositories put in the same IDs. */
  lemma NothingLeaks(lists: seq<seq<Value>>, reply: nat -> BuildReply, values: seq<Value>, ids: set<string>)
    requires IsFinal(values, lists, reply) && forall i :: 0 <= i < |lists| ==> Ids(lists[i]) == ids
    ensures Ids(values) !! ids
  {
    hide FinalText;
    forall i | 0 <= i < |values| ensures values[i].id !in ids {
      assert values[i] in values;
      var k := FinalComesFrom(lists, reply, |lists|, values[i].id);
    }
  }

  // ---------------------------------------------------------------- what the sources may hold

  /** PHASE and BUILD_FRAMEWORK_MODE come from the config only; every other ID from config, repository or pipeline, in
      this order. */
  lemma LookUpMeans(config: Json<Value>, repoValues: seq<Value>, cpe: Json<Value>, id: string)
    ensures id == "PHASE" || id == "BUILD_FRAMEWORK_MODE" ==> LookUp(config, repoValues, cpe, id) == ConfigText(config, id)
    ensures id != "PHASE" && id != "BUILD_FRAMEWORK_MODE" ==>
      LookUp(config, repoValues, cpe, id)
      == if ConfigText(config, id).Some? then ConfigText(config, id)
         else if AnyFirst(repoValues, |repoValues|, id).Some? then AnyFirst(repoValues, |repoValues|, id)
         else AnyFirst(Items(cpe), |Items(cpe)|, id)
  {
    hide AnyFirst;
  }

  /** The three sources can be merged exactly if config and pipeline values are no malformed JSON, the config has no
      empty ID or text and no ID twice, and the repository's IDs other than the two reserved ones are pairwise
      distinct and not in the config. */
  lemma MergeableMeans(config: Json<Value>, repoValues: seq<Value>, cpe: Json<Value>)
    ensures Mergeable(config, repoValues, cpe) <==>
      && !config.Malformed? && !cpe.Malformed?
      && (config.List? ==>
            (forall i :: 0 <= i < |config.items| ==> config.items[i].id != "" && config.items[i].text != "")
            && (forall i, j :: 0 <= i < j < |config.items| ==> config.items[i].id != config.items[j].id))
      && (forall i :: 0 <= i < |repoValues| && repoValues[i].id != "PHASE" && repoValues[i].id != "BUILD_FRAMEWORK_MODE" ==>
            !InConfig(config, repoValues[i].id)
            && forall j :: 0 <= j < |repoValues| && j != i ==> repoValues[j].id != repoValues[i].id)
  {
    forall i | 0 <= i < |repoValues|
      ensures ConfigText(config, repoValues[i].id) == None <==> !InConfig(config, repoValues[i].id)
    {
      AnyFirstIs(Items(config), |Items(config)|, repoValues[i].id);
    }
    hide AnyFirst, ConfigText, InConfig;
  }

  ghost predicate InConfig(config: Json<Value>, id: string) {
    config.List? && exists i :: 0 <= i < |config.items| && config.items[i].id == id
  }

  /** The number of failures is that of the builds that failed. */
  lemma {:induction false} FailuresCount(reply: nat -> BuildReply, n: nat)
    ensures Failures(reply, n) == |set i | 0 <= i < n && reply(i).failed|
  {
    var failed := set i | 0 <= i < n && reply(i).failed;
    if n == 0 {
      assert failed == {};
    } else {
      FailuresCount(reply, n - 1);
      var before := set i | 0 <= i < n - 1 && reply(i).failed;
      assert failed == if reply(n - 1).failed then before + {n - 1} else before;
    }
  }
}
