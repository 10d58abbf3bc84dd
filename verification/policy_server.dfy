/**
 * The endpoint state of the mock policy server: atomic batched updates, and the state file that
 * they are persisted to and restored from.
 */
module PolicyServer {
  import opened Common
  import opened PersistedState

  /** JSON as parsed; `Frac` stands for the numbers that are not integers. */
  datatype Json =
    | Null
    | Bool(b: bool)
    | Num(n: int)
    | Frac
    | Str(s: string)
    | Arr(items: seq<Json>)
    | Obj(fields: map<string, Json>)

  datatype Mode = JsonMode | MalformedJson | Disconnect | Timeout

  function ModeName(m: Mode): string {
    match m
    case JsonMode => "json"
    case MalformedJson => "malformed-json"
    case Disconnect => "disconnect"
    case Timeout => "timeout"
  }

  function ParseMode(j: Json): Option<Mode> {
    if j == Str("json") then Some(JsonMode)
    else if j == Str("malformed-json") then Some(MalformedJson)
    else if j == Str("disconnect") then Some(Disconnect)
    else if j == Str("timeout") then Some(Timeout)
    else None
  }

  datatype Preset = Preset(id: string, status: Option<int>, body: Json)

  datatype EndpointDef = EndpointDef(id: string, presets: seq<Preset>, mockedByDefault: bool)

  datatype EndpointState = EndpointState(status: int, body: Json, mode: Mode, active: bool)

  type StateMap = map<string, EndpointState>

  datatype Update = Update(
    endpoint: string, preset: Option<string>, status: Option<int>, body: Option<Json>,
    mode: Option<Mode>, active: Option<bool>)

  datatype Fault =
    | NotARecord | UnknownTopLevelField | NotANonEmptyArray
    | ItemNotARecord | UnknownField | EndpointNotAString | Duplicate | UnknownEndpoint | NothingToChange
    | PresetNotAString | UnknownPreset | BadStatus | BadActive | BadMode

  datatype Checked<+T> = Valid(value: T) | Invalid(fault: Fault)

  predicate StatusInRange(status: int) { 200 <= status <= 599 }

  /** The table of endpoints: some, with different ids, whose presets have proper statuses. */
  predicate ProperDefs(defs: seq<EndpointDef>) {
    && defs != []
    && (forall i, j :: 0 <= i < j < |defs| ==> defs[i].id != defs[j].id)
    && (forall i, k :: 0 <= i < |defs| && 0 <= k < |defs[i].presets| ==>
          defs[i].presets[k].status.Some? ==> StatusInRange(defs[i].presets[k].status.value))
  }

  function FindDef(defs: seq<EndpointDef>, id: string): Option<EndpointDef> {
    if defs == [] then None else if defs[0].id == id then Some(defs[0]) else FindDef(defs[1..], id)
  }

  function FindPreset(presets: seq<Preset>, id: string): Option<Preset> {
    if presets == [] then None else if presets[0].id == id then Some(presets[0]) else FindPreset(presets[1..], id)
  }

  // ---------------------------------------------------------------------------------------
  // Validation
  // ---------------------------------------------------------------------------------------

  const CHANGES: set<string> := {"preset", "status", "body", "mode", "active"}

  function Field(f: map<string, Json>, key: string): Option<Json> {
    if key in f then Some(f[key]) else None
  }

  function CheckPreset(def: EndpointDef, j: Option<Json>): Checked<Option<string>> {
    if j.None? then Valid(None)
    else if !j.value.Str? then Invalid(PresetNotAString)
    else if FindPreset(def.presets, j.value.s).None? then Invalid(UnknownPreset)
    else Valid(Some(j.value.s))
  }

  function CheckStatus(j: Option<Json>): Checked<Option<int>> {
    if j.None? then Valid(None)
    else if !j.value.Num? || !StatusInRange(j.value.n) then Invalid(BadStatus)
    else Valid(Some(j.value.n))
  }

  function CheckActive(j: Option<Json>): Checked<Option<bool>> {
    if j.None? then Valid(None) else if !j.value.Bool? then Invalid(BadActive) else Valid(Some(j.value.b))
  }

  function CheckMode(j: Option<Json>): Checked<Option<Mode>> {
    if j.None? then Valid(None)
    else if ParseMode(j.value).None? then Invalid(BadMode) else Valid(ParseMode(j.value))
  }

  /** One round of the validation loop. */
  function CheckItem(defs: seq<EndpointDef>, raw: Json, seen: set<string>): Checked<Update> {
    if !raw.Obj? then Invalid(ItemNotARecord)
    else
      var f := raw.fields;
      if !(f.Keys <= CHANGES + {"endpoint"}) then Invalid(UnknownField)
      else if "endpoint" !in f || !f["endpoint"].Str? then Invalid(EndpointNotAString)
      else
        var id := f["endpoint"].s;
        var def := FindDef(defs, id);
        if id in seen then Invalid(Duplicate)
        else if def.None? then Invalid(UnknownEndpoint)
        else if f.Keys !! CHANGES then Invalid(NothingToChange)
        else
          match CheckPreset(def.value, Field(f, "preset"))
          case Invalid(fault) => Invalid(fault)
          case Valid(preset) =>
            match CheckStatus(Field(f, "status"))
            case Invalid(fault) => Invalid(fault)
            case Valid(status) =>
              match CheckActive(Field(f, "active"))
              case Invalid(fault) => Invalid(fault)
              case Valid(active) =>
                match CheckMode(Field(f, "mode"))
                case Invalid(fault) => Invalid(fault)
                case Valid(mode) => Valid(Update(id, preset, status, Field(f, "body"), mode, active))
  }

  function CheckAll(defs: seq<EndpointDef>, items: seq<Json>, seen: set<string>): Checked<seq<Update>> {
    if items == [] then Valid([]) else
      match CheckItem(defs, items[0], seen)
      case Invalid(fault) => Invalid(fault)
      case Valid(u) =>
        match CheckAll(defs, items[1..], seen + {u.endpoint})
        case Invalid(fault) => Invalid(fault)
        case Valid(us) => Valid([u] + us)
  }

  /** The updates in a request body: one, or a non-empty array of them. */
  function Items(payload: Json): Checked<seq<Json>> {
    if !payload.Obj? then Invalid(NotARecord)
    else if "endpoints" !in payload.fields then Valid([payload])
    else if payload.fields.Keys != {"endpoints"} then Invalid(UnknownTopLevelField)
    else
      var e := payload.fields["endpoints"];
      if !e.Arr? || e.items == [] then Invalid(NotANonEmptyArray) else Valid(e.items)
  }

  function Check(defs: seq<EndpointDef>, payload: Json): Checked<seq<Update>> {
    match Items(payload)
    case Invalid(fault) => Invalid(fault)
    case Valid(items) => CheckAll(defs, items, {})
  }

  // ---------------------------------------------------------------------------------------
  // Application
  // ---------------------------------------------------------------------------------------

  function ApplyPreset(entry: EndpointState, p: Preset): EndpointState {
    entry.(status := if p.status.Some? then p.status.value else 200, body := p.body, active := true)
  }

  /** One round of the loop that applies updates. */
  function ApplyOne(defs: seq<EndpointDef>, entry: EndpointState, u: Update): EndpointState {
    var def := FindDef(defs, u.endpoint);
    var preset := if u.preset.None? || def.None? then None else FindPreset(def.value.presets, u.preset.value);
    var e0 := if preset.None? then entry else ApplyPreset(entry, preset.value);
    var e1 := if u.status.None? then e0 else e0.(status := u.status.value);
    var e2 := if u.body.None? then e1 else e1.(body := u.body.value);
    var e3 := if u.mode.None? then e2 else e2.(mode := u.mode.value);
    if u.active.None? then e3 else e3.(active := u.active.value)
  }

  function ApplyAll(defs: seq<EndpointDef>, state: StateMap, us: seq<Update>): StateMap {
    if us == [] then state
    else if us[0].endpoint !in state then ApplyAll(defs, state, us[1..])
    else ApplyAll(defs, state[us[0].endpoint := ApplyOne(defs, state[us[0].endpoint], us[0])], us[1..])
  }

  /** What a request body makes of a state: None if it is rejected. */
  function Outcome(defs: seq<EndpointDef>, state: StateMap, payload: Json): Option<StateMap> {
    match Check(defs, payload)
    case Invalid(_) => None
    case Valid(us) => Some(ApplyAll(defs, state, us))
  }

  function DefaultEntry(def: EndpointDef): EndpointState {
    if def.presets == [] then EndpointState(200, Obj(map[]), JsonMode, def.mockedByDefault)
    else
      var p := def.presets[0];
      EndpointState(if p.status.Some? then p.status.value else 200, p.body, JsonMode, def.mockedByDefault)
  }

  function Defaults(defs: seq<EndpointDef>): StateMap {
    if defs == [] then map[] else Defaults(defs[..|defs| - 1])[defs[|defs| - 1].id := DefaultEntry(defs[|defs| - 1])]
  }

  /** What is written to the state file for one endpoint. */
  function ItemOf(id: string, e: EndpointState): Json {
    Obj(map["endpoint" := Str(id), "status" := Num(e.status), "body" := e.body,
            "mode" := Str(ModeName(e.mode)), "active" := Bool(e.active)])
  }

  function ItemsOf(defs: seq<EndpointDef>, state: StateMap): seq<Json>
    requires forall i :: 0 <= i < |defs| ==> defs[i].id in state
  {
    seq(|defs|, i requires 0 <= i < |defs| => ItemOf(defs[i].id, state[defs[i].id]))
  }

  function PayloadOf(defs: seq<EndpointDef>, state: StateMap): Json
    requires forall i :: 0 <= i < |defs| ==> defs[i].id in state
  {
    Obj(map["endpoints" := Arr(ItemsOf(defs, state))])
  }

  /** All endpoints are there, with proper statuses. */
  predicate Proper(defs: seq<EndpointDef>, state: StateMap) {
    && (forall i :: 0 <= i < |defs| ==> defs[i].id in state)
    && (forall id :: id in state ==> FindDef(defs, id).Some? && StatusInRange(state[id].status))
  }

  // ---------------------------------------------------------------------------------------
  // Batches
  // ---------------------------------------------------------------------------------------

  function FindUpdate(us: seq<Update>, id: string): Option<Update> {
    if us == [] then None else if us[0].endpoint == id then Some(us[0]) else FindUpdate(us[1..], id)
  }

  predicate DistinctTargets(us: seq<Update>) {
    forall i, j :: 0 <= i < j < |us| ==> us[i].endpoint != us[j].endpoint
  }

  lemma {:induction false} FindUpdateExactly(us: seq<Update>, id: string)
    requires DistinctTargets(us)
    ensures FindUpdate(us, id).Some? ==> FindUpdate(us, id).value in us && FindUpdate(us, id).value.endpoint == id
    ensures forall i :: 0 <= i < |us| && us[i].endpoint == id ==> FindUpdate(us, id) == Some(us[i])
  {
    if us != [] {
      assert us == [us[0]] + us[1..];
      FindUpdateExactly(us[1..], id);
      forall i | 0 <= i < |us| && us[i].endpoint == id ensures FindUpdate(us, id) == Some(us[i]) {
        if i > 0 { assert us[1..][i - 1] == us[i]; }
      }
    }
  }

  lemma {:induction false} FindUpdateAbsent(us: seq<Update>, id: string)
    requires forall i :: 0 <= i < |us| ==> us[i].endpoint != id
    ensures FindUpdate(us, id) == None
  {
    if us != [] { FindUpdateAbsent(us[1..], id); }
  }

  /** Endpoint by endpoint: an update changes its own endpoint, and nothing else does. */
  lemma {:induction false} ApplyAllAt(defs: seq<EndpointDef>, state: StateMap, us: seq<Update>, id: string)
    requires DistinctTargets(us)
    ensures ApplyAll(defs, state, us).Keys == state.Keys
    ensures id in state ==>
      var u := FindUpdate(us, id);
      ApplyAll(defs, state, us)[id] == if u.None? then state[id] else ApplyOne(defs, state[id], u.value)
  {
    if us != [] {
      var u := us[0];
      var next := if u.endpoint in state then state[u.endpoint := ApplyOne(defs, state[u.endpoint], u)] else state;
      ApplyAllAt(defs, next, us[1..], id);
      FindUpdateAbsent(us[1..], u.endpoint);
    }
  }

  /** Whether an item is accepted by itself, and what update it then stands for. */
  function Single(defs: seq<EndpointDef>, item: Json): Checked<Update> {
    CheckItem(defs, item, {})
  }

  /** What a single update has to look like. */
  ghost predicate WellFormed(defs: seq<EndpointDef>, f: map<string, Json>) {
    && (forall key :: key in f ==> key == "endpoint" || key in CHANGES)
    && (exists key :: key in f && key in CHANGES)
    && "endpoint" in f && f["endpoint"].Str? && FindDef(defs, f["endpoint"].s).Some?
    && ("preset" in f ==>
          && f["preset"].Str?
          && exists p :: p in FindDef(defs, f["endpoint"].s).value.presets && p.id == f["preset"].s)
    && ("status" in f ==> f["status"].Num? && 200 <= f["status"].n <= 599)
    && ("active" in f ==> f["active"].Bool?)
    && ("mode" in f ==> exists m :: f["mode"] == Str(ModeName(m)))
  }

  lemma {:induction false} FindDefExactly(defs: seq<EndpointDef>, id: string)
    ensures FindDef(defs, id).Some? <==> exists i :: 0 <= i < |defs| && defs[i].id == id
    ensures FindDef(defs, id).Some? ==> FindDef(defs, id).value in defs && FindDef(defs, id).value.id == id
  {
    if defs != [] {
      assert defs == [defs[0]] + defs[1..];
      FindDefExactly(defs[1..], id);
      if i :| 0 <= i < |defs| && defs[i].id == id {
        if i > 0 { assert defs[1..][i - 1].id == id; }
      }
    }
  }

  lemma {:induction false} FindPresetExactly(presets: seq<Preset>, id: string)
    ensures FindPreset(presets, id).Some? <==> exists p :: p in presets && p.id == id
    ensures FindPreset(presets, id).Some? ==>
      FindPreset(presets, id).value in presets && FindPreset(presets, id).value.id == id
  {
    if presets != [] {
      assert presets == [presets[0]] + presets[1..];
      FindPresetExactly(presets[1..], id);
      if p :| p in presets && p.id == id {
        if p != presets[0] { assert p in presets[1..]; }
      }
    }
  }

  lemma ModesParse(j: Json)
    ensures ParseMode(j).Some? <==> exists m :: j == Str(ModeName(m))
    ensures ParseMode(j).Some? ==> j == Str(ModeName(ParseMode(j).value))
  {
    if ParseMode(j).Some? { assert j == Str(ModeName(ParseMode(j).value)); }
  }

  /** An item is accepted exactly when it is well-formed, and its update then says what it says. */
  lemma ItemAcceptedExactly(defs: seq<EndpointDef>, item: Json)
    ensures Single(defs, item).Valid? <==> item.Obj? && WellFormed(defs, item.fields)
    ensures Single(defs, item).Valid? ==>
      var f, u := item.fields, Single(defs, item).value;
      && f["endpoint"] == Str(u.endpoint)
      && Field(f, "preset") == (if u.preset.None? then None else Some(Str(u.preset.value)))
      && Field(f, "status") == (if u.status.None? then None else Some(Num(u.status.value)))
      && Field(f, "active") == (if u.active.None? then None else Some(Bool(u.active.value)))
      && Field(f, "mode") == (if u.mode.None? then None else Some(Str(ModeName(u.mode.value))))
      && Field(f, "body") == u.body
  {
    if item.Obj? {
      var f := item.fields;
      assert f.Keys <= CHANGES + {"endpoint"} <==> forall key :: key in f ==> key == "endpoint" || key in CHANGES;
      assert f.Keys !! CHANGES <==> !exists key :: key in f && key in CHANGES;
      if "mode" in f { ModesParse(f["mode"]); }
      if "endpoint" in f && f["endpoint"].Str? && FindDef(defs, f["endpoint"].s).Some? {
        if "preset" in f && f["preset"].Str? {
          FindPresetExactly(FindDef(defs, f["endpoint"].s).value.presets, f["preset"].s);
        }
      }
    }
  }

  predicate EachValid(defs: seq<EndpointDef>, items: seq<Json>) {
    forall i :: 0 <= i < |items| ==> Single(defs, items[i]).Valid?
  }

  predicate EachTargetOnce(defs: seq<EndpointDef>, items: seq<Json>)
    requires EachValid(defs, items)
  {
    forall i, j :: 0 <= i < j < |items| ==>
      Single(defs, items[i]).value.endpoint != Single(defs, items[j]).value.endpoint
  }

  lemma SeenMatters(defs: seq<EndpointDef>, item: Json, seen: set<string>)
    ensures CheckItem(defs, item, seen).Valid? <==>
      Single(defs, item).Valid? && Single(defs, item).value.endpoint !in seen
    ensures CheckItem(defs, item, seen).Valid? ==> CheckItem(defs, item, seen) == Single(defs, item)
  {}

  lemma {:induction false} AcceptedFrom(defs: seq<EndpointDef>, items: seq<Json>, seen: set<string>)
    ensures CheckAll(defs, items, seen).Valid? <==>
      && EachValid(defs, items)
      && EachTargetOnce(defs, items)
      && forall i :: 0 <= i < |items| ==> Single(defs, items[i]).value.endpoint !in seen
    ensures CheckAll(defs, items, seen).Valid? ==>
      && |CheckAll(defs, items, seen).value| == |items|
      && forall i :: 0 <= i < |items| ==> CheckAll(defs, items, seen).value[i] == Single(defs, items[i]).value
  {
    if items != [] {
      SeenMatters(defs, items[0], seen);
      var rest := items[1..];
      forall i | 0 < i < |items| ensures items[i] == rest[i - 1] {}
      if CheckItem(defs, items[0], seen).Valid? {
        var id := Single(defs, items[0]).value.endpoint;
        AcceptedFrom(defs, rest, seen + {id});
        if CheckAll(defs, items, seen).Valid? {
          assert forall i :: 0 <= i < |rest| ==> Single(defs, rest[i]).value.endpoint != id;
        } else if EachValid(defs, items) && EachTargetOnce(defs, items) {
          assert EachValid(defs, rest);
          assert EachTargetOnce(defs, rest);
          assert forall i :: 0 <= i < |rest| ==> Single(defs, rest[i]).value.endpoint != id;
        }
      }
    }
  }

  /** What an accepted update makes of a field: its own value, else the preset's, else the old one. */
  function Chosen<T>(given: Option<T>, preset: Option<T>, before: T): T {
    if given.Some? then given.value else if preset.Some? then preset.value else before
  }

  /** The preset that an item names. */
  function Named(defs: seq<EndpointDef>, f: map<string, Json>): Option<Preset> {
    if "preset" in f && f["preset"].Str?
       && "endpoint" in f && f["endpoint"].Str? && FindDef(defs, f["endpoint"].s).Some?
    then FindPreset(FindDef(defs, f["endpoint"].s).value.presets, f["preset"].s)
    else None
  }

  /**
   * The effect of one accepted update, field by field: explicit fields win over the preset's, a
   * preset activates its endpoint, and whatever neither of them gives stays as it was.
   */
  lemma SingleUpdateEffect(defs: seq<EndpointDef>, state: StateMap, item: Json)
    requires item.Obj? && "endpoints" !in item.fields && Outcome(defs, state, item).Some?
    requires "endpoint" in item.fields && item.fields["endpoint"].Str? && item.fields["endpoint"].s in state
    ensures var f, next := item.fields, Outcome(defs, state, item).value;
      var id, p := f["endpoint"].s, Named(defs, f);
      && next.Keys == state.Keys
      && (forall other :: other in state && other != id ==> next[other] == state[other])
      && ("preset" in f <==> p.Some?)
      && Num(next[id].status) == Chosen(Field(f, "status"),
           if p.None? then None else Some(Num(if p.value.status.Some? then p.value.status.value else 200)),
           Num(state[id].status))
      && next[id].body == Chosen(Field(f, "body"), if p.None? then None else Some(p.value.body), state[id].body)
      && Str(ModeName(next[id].mode)) == Chosen(Field(f, "mode"), None, Str(ModeName(state[id].mode)))
      && Bool(next[id].active) == Chosen(Field(f, "active"),
           if p.None? then None else Some(Bool(true)), Bool(state[id].active))
  {
    var f := item.fields;
    assert [item][1..] == [];
    assert CheckAll(defs, [item], {}).value == [Single(defs, item).value];
    ItemAcceptedExactly(defs, item);
    var u := Single(defs, item).value;
    assert [u][1..] == [];
    assert ApplyAll(defs, state, [u]) == state[u.endpoint := ApplyOne(defs, state[u.endpoint], u)];
  }

  /** A batch is accepted exactly when each item would be by itself and no endpoint appears twice. */
  lemma AcceptedExactly(defs: seq<EndpointDef>, items: seq<Json>)
    ensures CheckAll(defs, items, {}).Valid? <==> EachValid(defs, items) && EachTargetOnce(defs, items)
    ensures CheckAll(defs, items, {}).Valid? ==>
      && DistinctTargets(CheckAll(defs, items, {}).value)
      && |CheckAll(defs, items, {}).value| == |items|
      && forall i :: 0 <= i < |items| ==> CheckAll(defs, items, {}).value[i] == Single(defs, items[i]).value
  {
    AcceptedFrom(defs, items, {});
  }

  function Batch(items: seq<Json>): Json {
    Obj(map["endpoints" := Arr(items)])
  }

  /** Well-formed items, each for another endpoint. */
  ghost predicate WellFormedItems(defs: seq<EndpointDef>, items: seq<Json>) {
    && (forall i :: 0 <= i < |items| ==> items[i].Obj? && WellFormed(defs, items[i].fields))
    && (forall i, j :: 0 <= i < j < |items| ==> items[i].fields["endpoint"] != items[j].fields["endpoint"])
  }

  lemma ItemsAcceptedExactly(defs: seq<EndpointDef>, items: seq<Json>)
    ensures CheckAll(defs, items, {}).Valid? <==> WellFormedItems(defs, items)
  {
    AcceptedExactly(defs, items);
    forall i | 0 <= i < |items|
      ensures Single(defs, items[i]).Valid? <==> items[i].Obj? && WellFormed(defs, items[i].fields)
      ensures Single(defs, items[i]).Valid? ==>
        items[i].fields["endpoint"] == Str(Single(defs, items[i]).value.endpoint)
    {
      ItemAcceptedExactly(defs, items[i]);
    }
    if EachValid(defs, items) {
      forall i, j | 0 <= i < j < |items|
        ensures items[i].fields["endpoint"] != items[j].fields["endpoint"]
          <==> Single(defs, items[i]).value.endpoint != Single(defs, items[j]).value.endpoint
      {
        assert Single(defs, items[i]).Valid? && Single(defs, items[j]).Valid?;
      }
    }
  }

  /**
   * Which request bodies are accepted: a well-formed update, or an object with nothing but a
   * non-empty array of them under "endpoints", each for another endpoint.
   */
  lemma RequestAcceptedExactly(defs: seq<EndpointDef>, state: StateMap, payload: Json)
    ensures Outcome(defs, state, payload).Some? <==>
      && payload.Obj?
      && if "endpoints" !in payload.fields then WellFormed(defs, payload.fields)
         else
           && (forall key :: key in payload.fields ==> key == "endpoints")
           && payload.fields["endpoints"].Arr? && payload.fields["endpoints"].items != []
           && WellFormedItems(defs, payload.fields["endpoints"].items)
  {
    if payload.Obj? {
      if "endpoints" in payload.fields {
        assert payload.fields.Keys == {"endpoints"} <==> forall key :: key in payload.fields ==> key == "endpoints";
        if payload.fields["endpoints"].Arr? { ItemsAcceptedExactly(defs, payload.fields["endpoints"].items); }
      } else {
        ItemsAcceptedExactly(defs, [payload]);
      }
    }
  }

  predicate HasName(raw: Json, name: string) {
    raw.Obj? && "endpoint" in raw.fields && raw.fields["endpoint"] == Str(name)
  }

  /** What is wrong with an item that is rejected with this fault, given the items before it. */
  ghost predicate Cause(defs: seq<EndpointDef>, before: seq<Json>, raw: Json, fault: Fault) {
    if !raw.Obj? then fault == ItemNotARecord
    else
      var f := raw.fields;
      match fault
      case UnknownField =>
        exists key :: key in f && key !in {"endpoint", "preset", "status", "body", "mode", "active"}
      case EndpointNotAString => "endpoint" !in f || !f["endpoint"].Str?
      case Duplicate => exists j, name :: 0 <= j < |before| && HasName(before[j], name) && HasName(raw, name)
      case UnknownEndpoint => forall d :: d in defs ==> !HasName(raw, d.id)
      case NothingToChange => forall key :: key in f ==> key !in {"preset", "status", "body", "mode", "active"}
      case PresetNotAString => "preset" in f && !f["preset"].Str?
      case UnknownPreset =>
        && "preset" in f && f["preset"].Str?
        && exists d :: d in defs && HasName(raw, d.id) && forall p :: p in d.presets ==> p.id != f["preset"].s
      case BadStatus => "status" in f && (f["status"].Num? ==> f["status"].n < 200 || f["status"].n > 599)
      case BadActive => "active" in f && !f["active"].Bool?
      case BadMode =>
        "mode" in f && forall name :: name in {"json", "malformed-json", "disconnect", "timeout"} ==> f["mode"] != Str(name)
      case _ => false
  }

  lemma ItemFault(defs: seq<EndpointDef>, before: seq<Json>, raw: Json, seen: set<string>)
    requires forall name :: name in seen ==> exists j :: 0 <= j < |before| && HasName(before[j], name)
    requires CheckItem(defs, raw, seen).Invalid?
    ensures Cause(defs, before, raw, CheckItem(defs, raw, seen).fault)
  {
    if raw.Obj? && "endpoint" in raw.fields && raw.fields["endpoint"].Str? {
      var f, fault := raw.fields, CheckItem(defs, raw, seen).fault;
      FindDefExactly(defs, f["endpoint"].s);
      var def := FindDef(defs, f["endpoint"].s);
      if fault.UnknownPreset? {
        FindPresetExactly(def.value.presets, f["preset"].s);
        assert HasName(raw, def.value.id);
      } else if fault.BadMode? {
        ModesParse(f["mode"]);
      } else if fault.Duplicate? {
        assert HasName(raw, f["endpoint"].s);
      }
    }
  }

  /** A batch is rejected for what is wrong with its first faulty item. */
  lemma {:induction false} FirstFault(defs: seq<EndpointDef>, before: seq<Json>, items: seq<Json>, seen: set<string>)
    returns (i: nat)
    requires forall name :: name in seen <==> exists j :: 0 <= j < |before| && HasName(before[j], name)
    requires CheckAll(defs, items, seen).Invalid?
    ensures i < |items| && CheckAll(defs, items[..i], seen).Valid?
    ensures Cause(defs, before + items[..i], items[i], CheckAll(defs, items, seen).fault)
    decreases |items|
  {
    match CheckItem(defs, items[0], seen)
    case Invalid(_) =>
      i := 0;
      ItemFault(defs, before, items[0], seen);
      assert before + items[..0] == before;
    case Valid(u) =>
      var now, next := before + [items[0]], seen + {u.endpoint};
      assert HasName(items[0], u.endpoint);
      forall name ensures name in next <==> exists j :: 0 <= j < |now| && HasName(now[j], name) {
        if name == u.endpoint { assert HasName(now[|before|], name); }
        if j :| 0 <= j < |before| && HasName(before[j], name) { assert HasName(now[j], name); }
      }
      var k := FirstFault(defs, now, items[1..], next);
      i := k + 1;
      assert items[..i][0] == items[0] && items[..i][1..] == items[1..][..k];
      assert now + items[1..][..k] == before + items[..i];
  }

  /** The fault reported for a request body is one that it has. */
  lemma RejectedForCause(defs: seq<EndpointDef>, payload: Json)
    requires Check(defs, payload).Invalid?
    ensures match Check(defs, payload).fault
      case NotARecord => !payload.Obj?
      case UnknownTopLevelField =>
        payload.Obj? && "endpoints" in payload.fields && exists key :: key in payload.fields && key != "endpoints"
      case NotANonEmptyArray =>
        && payload.Obj? && "endpoints" in payload.fields
        && (payload.fields["endpoints"].Arr? ==> payload.fields["endpoints"].items == [])
      case fault =>
        && Items(payload).Valid?
        && exists i :: 0 <= i < |Items(payload).value| && CheckAll(defs, Items(payload).value[..i], {}).Valid?
             && Cause(defs, Items(payload).value[..i], Items(payload).value[i], fault)
  {
    if Items(payload).Valid? {
      var items := Items(payload).value;
      var i := FirstFault(defs, [], items, {});
      assert [] + items[..i] == items[..i];
    } else if payload.Obj? {
      assert payload.fields.Keys != {"endpoints"} ==> exists key :: key in payload.fields && key != "endpoints";
    }
  }

  /** An accepted batch touches only the endpoints that it names. */
  lemma OnlyNamedChange(defs: seq<EndpointDef>, state: StateMap, items: seq<Json>, id: string)
    requires Outcome(defs, state, Batch(items)).Some?
    requires forall i :: 0 <= i < |items| && Single(defs, items[i]).Valid? ==>
      Single(defs, items[i]).value.endpoint != id
    ensures Outcome(defs, state, Batch(items)).value.Keys == state.Keys
    ensures id in state ==> Outcome(defs, state, Batch(items)).value[id] == state[id]
  {
    AcceptedExactly(defs, items);
    var us := CheckAll(defs, items, {}).value;
    ApplyAllAt(defs, state, us, id);
    FindUpdateAbsent(us, id);
  }

  // ---------------------------------------------------------------------------------------
  // The order of a batch
  // ---------------------------------------------------------------------------------------

  /** Each at most once, and each aiming at another endpoint: says nothing about the order. */
  ghost predicate Unordered(defs: seq<EndpointDef>, items: seq<Json>) {
    && (forall x :: x in items ==> Single(defs, x).Valid? && multiset(items)[x] == 1)
    && (forall x, y :: x in items && y in items && x != y ==>
          Single(defs, x).Valid? && Single(defs, y).Valid? &&
          Single(defs, x).value.endpoint != Single(defs, y).value.endpoint)
  }

  lemma {:induction false} OnceEach<T>(s: seq<T>)
    ensures (forall i, j :: 0 <= i < j < |s| ==> s[i] != s[j]) <==> (forall x :: x in s ==> multiset(s)[x] == 1)
  {
    if s != [] {
      var rest := s[1..];
      assert s == [s[0]] + rest;
      OnceEach(rest);
      assert multiset(s) == multiset{s[0]} + multiset(rest);
      if forall x :: x in s ==> multiset(s)[x] == 1 {
        assert multiset(s)[s[0]] == 1;
        forall x | x in rest ensures multiset(rest)[x] == 1 { assert x in s; }
        forall i, j | 0 <= i < j < |s| ensures s[i] != s[j] {
          if i > 0 { assert rest[i - 1] != rest[j - 1]; } else { assert rest[j - 1] == s[j]; }
        }
      }
      if forall i, j :: 0 <= i < j < |s| ==> s[i] != s[j] {
        forall i, j | 0 <= i < j < |rest| ensures rest[i] != rest[j] { assert s[i + 1] != s[j + 1]; }
        forall i | 0 <= i < |rest| ensures rest[i] != s[0] { assert s[i + 1] != s[0]; }
      }
    }
  }

  lemma TargetOnceUnordered(defs: seq<EndpointDef>, items: seq<Json>)
    requires EachValid(defs, items) && EachTargetOnce(defs, items)
    ensures Unordered(defs, items)
  {
    OnceEach(items);
    forall x, y | x in items && y in items && x != y
      ensures Single(defs, x).Valid? && Single(defs, y).Valid?
      ensures Single(defs, x).value.endpoint != Single(defs, y).value.endpoint
    {
      var i :| 0 <= i < |items| && items[i] == x;
      var j :| 0 <= j < |items| && items[j] == y;
      assert i < j || j < i;
    }
  }

  lemma UnorderedTargetOnce(defs: seq<EndpointDef>, items: seq<Json>)
    requires Unordered(defs, items)
    ensures EachValid(defs, items) && EachTargetOnce(defs, items)
  {
    OnceEach(items);
    forall i | 0 <= i < |items| ensures Single(defs, items[i]).Valid? { assert items[i] in items; }
    forall i, j | 0 <= i < j < |items|
      ensures Single(defs, items[i]).value.endpoint != Single(defs, items[j]).value.endpoint
    {
      assert items[i] in items && items[j] in items && items[i] != items[j];
    }
  }

  lemma AcceptedInAnyOrder(defs: seq<EndpointDef>, items: seq<Json>)
    ensures CheckAll(defs, items, {}).Valid? <==> Unordered(defs, items)
  {
    AcceptedExactly(defs, items);
    if CheckAll(defs, items, {}).Valid? { TargetOnceUnordered(defs, items); }
    if Unordered(defs, items) { UnorderedTargetOnce(defs, items); }
  }

  lemma UnorderedPermutes(defs: seq<EndpointDef>, items: seq<Json>, other: seq<Json>)
    requires multiset(items) == multiset(other) && Unordered(defs, items)
    ensures Unordered(defs, other)
  {
    forall x | x in other ensures x in items { assert x in multiset(items); }
  }

  lemma FindUpdateSame(us: seq<Update>, vs: seq<Update>, id: string)
    requires DistinctTargets(us) && DistinctTargets(vs)
    requires forall u :: u in us <==> u in vs
    ensures FindUpdate(us, id) == FindUpdate(vs, id)
  {
    FindUpdateExactly(us, id);
    FindUpdateExactly(vs, id);
    if FindUpdate(us, id).Some? {
      assert FindUpdate(us, id).value in vs;
    } else if FindUpdate(vs, id).Some? {
      assert FindUpdate(vs, id).value in us;
    }
  }

  lemma SameUpdates(defs: seq<EndpointDef>, items: seq<Json>, other: seq<Json>, u: Update)
    requires multiset(items) == multiset(other)
    requires CheckAll(defs, items, {}).Valid? && CheckAll(defs, other, {}).Valid?
    ensures u in CheckAll(defs, items, {}).value ==> u in CheckAll(defs, other, {}).value
  {
    AcceptedExactly(defs, items);
    AcceptedExactly(defs, other);
    var us, vs := CheckAll(defs, items, {}).value, CheckAll(defs, other, {}).value;
    if u in us {
      var i :| 0 <= i < |us| && us[i] == u;
      assert items[i] in multiset(other);
      var j :| 0 <= j < |other| && other[j] == items[i];
      assert vs[j] == u;
    }
  }

  lemma SameResult(defs: seq<EndpointDef>, state: StateMap, items: seq<Json>, other: seq<Json>)
    requires multiset(items) == multiset(other)
    requires CheckAll(defs, items, {}).Valid? && CheckAll(defs, other, {}).Valid?
    ensures ApplyAll(defs, state, CheckAll(defs, items, {}).value)
      == ApplyAll(defs, state, CheckAll(defs, other, {}).value)
  {
    AcceptedExactly(defs, items);
    AcceptedExactly(defs, other);
    var us, vs := CheckAll(defs, items, {}).value, CheckAll(defs, other, {}).value;
    ApplyAllAt(defs, state, us, "");
    ApplyAllAt(defs, state, vs, "");
    forall u ensures u in us <==> u in vs {
      SameUpdates(defs, items, other, u);
      SameUpdates(defs, other, items, u);
    }
    forall id | id in state ensures ApplyAll(defs, state, us)[id] == ApplyAll(defs, state, vs)[id] {
      ApplyAllAt(defs, state, us, id);
      ApplyAllAt(defs, state, vs, id);
      FindUpdateSame(us, vs, id);
    }
  }

  /** A batch is accepted or not, and does what it does, whatever the order of its updates. */
  lemma OrderDoesNotMatter(defs: seq<EndpointDef>, state: StateMap, items: seq<Json>, other: seq<Json>)
    requires multiset(items) == multiset(other)
    ensures Outcome(defs, state, Batch(items)) == Outcome(defs, state, Batch(other))
  {
    AcceptedInAnyOrder(defs, items);
    AcceptedInAnyOrder(defs, other);
    assert Unordered(defs, items) <==> Unordered(defs, other) by {
      if Unordered(defs, items) { UnorderedPermutes(defs, items, other); }
      if Unordered(defs, other) { UnorderedPermutes(defs, other, items); }
    }
    assert |items| == |multiset(items)| == |other|;
    if CheckAll(defs, items, {}).Valid? && CheckAll(defs, other, {}).Valid? {
      SameResult(defs, state, items, other);
    }
  }

  /** Sending the updates in as many requests: None once one is rejected. */
  function OneByOne(defs: seq<EndpointDef>, state: StateMap, items: seq<Json>): Option<StateMap>
    decreases |items|
  {
    if items == [] then Some(state) else
      match Outcome(defs, state, items[0])
      case None => None
      case Some(next) => OneByOne(defs, next, items[1..])
  }

  lemma {:induction false} BatchFrom(defs: seq<EndpointDef>, state: StateMap, items: seq<Json>)
    requires CheckAll(defs, items, {}).Valid?
    decreases |items|
    ensures OneByOne(defs, state, items) == Some(ApplyAll(defs, state, CheckAll(defs, items, {}).value))
  {
    AcceptedExactly(defs, items);
    var us := CheckAll(defs, items, {}).value;
    if items != [] {
      var rest := items[1..];
      assert EachValid(defs, rest);
      assert EachTargetOnce(defs, rest);
      AcceptedExactly(defs, rest);
      assert CheckAll(defs, rest, {}).value == us[1..];
      AcceptedExactly(defs, [items[0]]);
      assert CheckAll(defs, [items[0]], {}).value == [us[0]];
      assert "endpoints" !in items[0].fields;
      var u := us[0];
      var next := if u.endpoint in state then state[u.endpoint := ApplyOne(defs, state[u.endpoint], u)] else state;
      assert [u][1..] == [];
      assert ApplyAll(defs, state, [u]) == ApplyAll(defs, next, []);
      assert Outcome(defs, state, items[0]) == Some(next);
      BatchFrom(defs, next, rest);
    }
  }

  /** An accepted batch does what its updates would do one at a time. */
  lemma BatchIsOneByOne(defs: seq<EndpointDef>, state: StateMap, items: seq<Json>)
    requires Outcome(defs, state, Batch(items)).Some?
    ensures OneByOne(defs, state, items) == Outcome(defs, state, Batch(items))
  {
    BatchFrom(defs, state, items);
  }

  // ---------------------------------------------------------------------------------------
  // Persisting and restoring
  // ---------------------------------------------------------------------------------------

  lemma {:induction false} DefaultsAt(defs: seq<EndpointDef>, id: string)
    ensures id in Defaults(defs) <==> exists i :: 0 <= i < |defs| && defs[i].id == id
    ensures id in Defaults(defs) ==> exists i :: 0 <= i < |defs| && Defaults(defs)[id] == DefaultEntry(defs[i])
  {
    if defs != [] {
      var n := |defs| - 1;
      DefaultsAt(defs[..n], id);
      assert defs == defs[..n] + [defs[n]];
      if defs[n].id == id {
        assert Defaults(defs)[id] == DefaultEntry(defs[n]);
      } else if id in Defaults(defs) {
        var i :| 0 <= i < n && Defaults(defs[..n])[id] == DefaultEntry(defs[..n][i]);
        assert Defaults(defs)[id] == DefaultEntry(defs[i]);
      }
    }
  }

  /** What the first preset gives, or what stands in for it if there is none. */
  lemma {:induction false} DefaultsExactly(defs: seq<EndpointDef>, i: nat)
    requires (forall j, k :: 0 <= j < k < |defs| ==> defs[j].id != defs[k].id) && i < |defs|
    ensures defs[i].id in Defaults(defs)
    ensures var e, presets := Defaults(defs)[defs[i].id], defs[i].presets;
      && e.mode == JsonMode && e.active == defs[i].mockedByDefault
      && (presets == [] ==> e.status == 200 && e.body == Obj(map[]))
      && (presets != [] ==> e.body == presets[0].body)
      && (presets != [] && presets[0].status.None? ==> e.status == 200)
      && (presets != [] && presets[0].status.Some? ==> e.status == presets[0].status.value)
  {
    var n := |defs| - 1;
    if i < n { DefaultsExactly(defs[..n], i); }
  }

  lemma DefaultsAreProper(defs: seq<EndpointDef>)
    requires ProperDefs(defs)
    ensures Proper(defs, Defaults(defs))
  {
    forall i | 0 <= i < |defs| ensures defs[i].id in Defaults(defs) {
      DefaultsAt(defs, defs[i].id);
    }
    forall id | id in Defaults(defs)
      ensures FindDef(defs, id).Some? && StatusInRange(Defaults(defs)[id].status)
    {
      DefaultsAt(defs, id);
      FindDefExactly(defs, id);
    }
  }

  lemma ApplyOneInRange(defs: seq<EndpointDef>, entry: EndpointState, u: Update)
    requires ProperDefs(defs) && StatusInRange(entry.status)
    requires u.status.Some? ==> StatusInRange(u.status.value)
    ensures StatusInRange(ApplyOne(defs, entry, u).status)
  {
    FindDefExactly(defs, u.endpoint);
    var def := FindDef(defs, u.endpoint);
    if def.Some? && u.preset.Some? { FindPresetExactly(def.value.presets, u.preset.value); }
  }

  lemma CheckedInRange(defs: seq<EndpointDef>, items: seq<Json>, u: Update)
    requires CheckAll(defs, items, {}).Valid? && u in CheckAll(defs, items, {}).value
    ensures u.status.Some? ==> StatusInRange(u.status.value)
  {
    AcceptedExactly(defs, items);
    var us := CheckAll(defs, items, {}).value;
    var i :| 0 <= i < |us| && us[i] == u;
    assert Single(defs, items[i]) == Valid(u);
  }

  /** No request can make a state improper: whatever is posted, it could be persisted. */
  lemma OutcomeIsProper(defs: seq<EndpointDef>, state: StateMap, payload: Json)
    requires ProperDefs(defs) && Proper(defs, state)
    requires Outcome(defs, state, payload).Some?
    ensures Proper(defs, Outcome(defs, state, payload).value)
  {
    AcceptedExactly(defs, Items(payload).value);
    var us := CheckAll(defs, Items(payload).value, {}).value;
    ApplyAllAt(defs, state, us, "");
    forall id | id in state ensures StatusInRange(ApplyAll(defs, state, us)[id].status) {
      ApplyAllAt(defs, state, us, id);
      FindUpdateExactly(us, id);
      if FindUpdate(us, id).Some? {
        CheckedInRange(defs, Items(payload).value, FindUpdate(us, id).value);
        ApplyOneInRange(defs, state[id], FindUpdate(us, id).value);
      }
    }
  }

  lemma ItemReadsBack(defs: seq<EndpointDef>, id: string, e: EndpointState)
    requires FindDef(defs, id).Some? && StatusInRange(e.status)
    ensures Single(defs, ItemOf(id, e)) == Valid(FullUpdate(id, e))
  {
    var f := ItemOf(id, e).fields;
    assert "status" in f.Keys && "status" in CHANGES;
    assert ParseMode(Str(ModeName(e.mode))) == Some(e.mode);
  }

  function FullUpdate(id: string, e: EndpointState): Update {
    Update(id, None, Some(e.status), Some(e.body), Some(e.mode), Some(e.active))
  }

  lemma ItemsReadBack(defs: seq<EndpointDef>, state: StateMap)
    requires ProperDefs(defs) && Proper(defs, state)
    ensures CheckAll(defs, ItemsOf(defs, state), {}).Valid?
    ensures DistinctTargets(CheckAll(defs, ItemsOf(defs, state), {}).value)
    ensures forall i :: 0 <= i < |defs| ==>
      FullUpdate(defs[i].id, state[defs[i].id]) in CheckAll(defs, ItemsOf(defs, state), {}).value
  {
    var items := ItemsOf(defs, state);
    forall i | 0 <= i < |defs|
      ensures Single(defs, items[i]) == Valid(FullUpdate(defs[i].id, state[defs[i].id]))
    {
      ItemReadsBack(defs, defs[i].id, state[defs[i].id]);
    }
    AcceptedExactly(defs, items);
    forall i | 0 <= i < |defs|
      ensures FullUpdate(defs[i].id, state[defs[i].id]) in CheckAll(defs, items, {}).value
    {
      assert CheckAll(defs, items, {}).value[i] == Single(defs, items[i]).value;
    }
  }

  lemma FullUpdateSets(defs: seq<EndpointDef>, before: StateMap, us: seq<Update>, id: string, e: EndpointState)
    requires DistinctTargets(us) && FullUpdate(id, e) in us && id in before
    ensures id in ApplyAll(defs, before, us) && ApplyAll(defs, before, us)[id] == e
  {
    ApplyAllAt(defs, before, us, id);
    FindUpdateExactly(us, id);
    var i :| 0 <= i < |us| && us[i] == FullUpdate(id, e);
    assert FindUpdate(us, id) == Some(us[i]);
  }

  /** Restoring what was persisted gives back the state, whatever the state before was. */
  lemma RestoreExactly(defs: seq<EndpointDef>, before: StateMap, state: StateMap)
    requires ProperDefs(defs) && Proper(defs, state) && Proper(defs, before)
    ensures Outcome(defs, before, PayloadOf(defs, state)) == Some(state)
  {
    ItemsReadBack(defs, state);
    var us := CheckAll(defs, ItemsOf(defs, state), {}).value;
    ApplyAllAt(defs, before, us, "");
    forall id ensures id in before <==> id in state { FindDefExactly(defs, id); }
    forall id | id in state ensures ApplyAll(defs, before, us)[id] == state[id] {
      FindDefExactly(defs, id);
      var i :| 0 <= i < |defs| && defs[i].id == id;
      FullUpdateSets(defs, before, us, id, state[id]);
    }
    assert ApplyAll(defs, before, us).Keys == state.Keys;
    assert ApplyAll(defs, before, us) == state;
  }

  /** What a server that starts up with this file makes of it. */
  function Restored(defs: seq<EndpointDef>, file: File<Json>): StateMap {
    if file.Holding? then
      var r := Outcome(defs, Defaults(defs), file.value);
      if r.Some? then r.value else Defaults(defs)
    else Defaults(defs)
  }

  lemma RestoredIsProper(defs: seq<EndpointDef>, file: File<Json>)
    requires ProperDefs(defs)
    ensures Proper(defs, Restored(defs, file))
  {
    DefaultsAreProper(defs);
    if file.Holding? && Outcome(defs, Defaults(defs), file.value).Some? {
      OutcomeIsProper(defs, Defaults(defs), file.value);
    }
  }

  lemma RestoredFromPersisted(defs: seq<EndpointDef>, state: StateMap)
    requires ProperDefs(defs) && Proper(defs, state)
    ensures Restored(defs, Holding(PayloadOf(defs, state))) == state
  {
    DefaultsAreProper(defs);
    RestoreExactly(defs, Defaults(defs), state);
  }

  // ---------------------------------------------------------------------------------------
  // The server
  // ---------------------------------------------------------------------------------------

  datatype Reply = Accepted | Rejected(fault: Fault) | Threw

  /** The state file, and the temporary file next to it. */
  datatype Disk = Disk(file: File<Json>, temp: File<Json>)

  /** Which call throws while the new contents are put in place; a failing write leaves anything. */
  datatype Throws = Nothing | Mkdir | Write(left: File<Json>) | Rename

  /** How persisting goes; removing the temporary file in the end may throw as well. */
  datatype Luck = Luck(throws: Throws, cleanUpThrows: bool)

  predicate AllWell(luck: Luck) { luck.throws.Nothing? && !luck.cleanUpThrows }

  /** The disk at the moments of a run: a process that is killed leaves one of these. */
  ghost predicate Trail(trail: seq<Disk>, before: Disk, after: Disk) {
    trail != [] && trail[0] == before && trail[|trail| - 1] == after
  }

  /** At every moment, a restart makes one of these states. */
  ghost predicate RestoresOneOf(defs: seq<EndpointDef>, trail: seq<Disk>, states: set<StateMap>) {
    forall i :: 0 <= i < |trail| ==> Restored(defs, trail[i].file) in states
  }

  datatype Request = Posted(payload: Json, luck: Luck) | ResetAll(luck: Luck)

  /** The state that a request asks for, if it is accepted. */
  function Target(defs: seq<EndpointDef>, state: StateMap, r: Request): Option<StateMap> {
    match r
    case Posted(payload, _) => Outcome(defs, state, payload)
    case ResetAll(_) => Some(Defaults(defs))
  }

  /** The request gets as far as renaming the new state file into place. */
  predicate Renames(defs: seq<EndpointDef>, state: StateMap, r: Request) {
    Target(defs, state, r).Some? && r.luck.throws.Nothing?
  }

  /** The state in memory after a request. */
  function After(defs: seq<EndpointDef>, state: StateMap, r: Request): StateMap {
    if Renames(defs, state, r) && !r.luck.cleanUpThrows then Target(defs, state, r).value else state
  }

  function AfterAll(defs: seq<EndpointDef>, state: StateMap, rs: seq<Request>): StateMap {
    if rs == [] then state else After(defs, AfterAll(defs, state, rs[..|rs| - 1]), rs[|rs| - 1])
  }

  /** The state in the file, if both began with the same one. */
  function OnFile(defs: seq<EndpointDef>, state: StateMap, rs: seq<Request>): StateMap {
    if rs == [] then state
    else
      var front, r := rs[..|rs| - 1], rs[|rs| - 1];
      var memory := AfterAll(defs, state, front);
      if Renames(defs, memory, r) then Target(defs, memory, r).value else OnFile(defs, state, front)
  }

  /** The last request that renamed the file into place. */
  function LastRename(defs: seq<EndpointDef>, state: StateMap, rs: seq<Request>): (k: Option<nat>)
    ensures k.Some? ==> k.value < |rs|
  {
    if rs == [] then None
    else
      var n := |rs| - 1;
      if Renames(defs, AfterAll(defs, state, rs[..n]), rs[n]) then Some(n) else LastRename(defs, state, rs[..n])
  }

  /**
   * File and memory agree unless the last request that renamed the file had its clean-up throw;
   * then the file holds what it asked for and memory is as before it.
   */
  lemma {:induction false} FileAgreesExactly(defs: seq<EndpointDef>, state: StateMap, rs: seq<Request>)
    ensures var k := LastRename(defs, state, rs);
      if k.None? then OnFile(defs, state, rs) == AfterAll(defs, state, rs) == state
      else
        var before := AfterAll(defs, state, rs[..k.value]);
        && Some(OnFile(defs, state, rs)) == Target(defs, before, rs[k.value])
        && AfterAll(defs, state, rs) == if rs[k.value].luck.cleanUpThrows then before else OnFile(defs, state, rs)
  {
    if rs != [] {
      var n := |rs| - 1;
      FileAgreesExactly(defs, state, rs[..n]);
      var k := LastRename(defs, state, rs[..n]);
      if k.Some? { assert rs[..n][..k.value] == rs[..k.value]; }
    }
  }

  /** A restart makes the state that was in the file after some of the requests. */
  ghost predicate RestoresPrefix(defs: seq<EndpointDef>, state: StateMap, rs: seq<Request>, disk: Disk) {
    exists j :: 0 <= j <= |rs| && Restored(defs, disk.file) == OnFile(defs, state, rs[..j])
  }

  lemma RestoresMore(defs: seq<EndpointDef>, state: StateMap, rs: seq<Request>, i: nat, trail: seq<Disk>)
    requires i < |rs|
    requires RestoresOneOf(defs, trail, {OnFile(defs, state, rs[..i]), OnFile(defs, state, rs[..i + 1])})
    ensures forall k :: 0 <= k < |trail| ==> RestoresPrefix(defs, state, rs, trail[k])
  {
    forall k | 0 <= k < |trail| ensures RestoresPrefix(defs, state, rs, trail[k]) {
      assert Restored(defs, trail[k].file) in {OnFile(defs, state, rs[..i]), OnFile(defs, state, rs[..i + 1])};
    }
  }

  class Server {
    const defs: seq<EndpointDef>
    var state: StateMap
    var file: File<Json>
    var temp: File<Json>
    var hasPersistedState: bool

    ghost predicate Sound()
      reads this
    {
      ProperDefs(defs) && Proper(defs, state)
    }

    /**
     * A restart at this moment would make the same state again. The file is changed by this server
     * alone.
     */
    ghost predicate Durable()
      reads this
    {
      Sound() && state == Restored(defs, file)
    }

    ghost function OnDisk(): Disk
      reads this
    {
      Disk(file, temp)
    }

    /** Start-up, with whatever file is there. */
    constructor (defs: seq<EndpointDef>, file: File<Json>)
      requires ProperDefs(defs)
      ensures this.defs == defs && this.file == file && Durable()
      ensures hasPersistedState <==> file.Holding? && Outcome(defs, Defaults(defs), file.value).Some?
    {
      this.defs := defs;
      this.file := file;
      this.temp := Missing;
      this.hasPersistedState := false;
      this.state := map[];
      new;
      state := DefaultState();
      DefaultsAreProper(defs);
      RestoredIsProper(defs, file);
      if file.Holding? {
        var reply, _ := ApplyEndpointUpdates(file.value, false, Luck(Nothing, false));
        if reply.Accepted? { hasPersistedState := true; }
      }
    }

    method DefaultState() returns (result: StateMap)
      ensures result == Defaults(defs)
    {
      result := map[];
      for i := 0 to |defs|
        invariant result == Defaults(defs[..i])
      {
        var def := defs[i];
        var status, body := 200, Obj(map[]);
        if def.presets != [] {
          body := def.presets[0].body;
          if def.presets[0].status.Some? { status := def.presets[0].status.value; }
        }
        result := result[def.id := EndpointState(status, body, JsonMode, def.mockedByDefault)];
        assert defs[..i + 1][..i] == defs[..i];
      }
      assert defs[..|defs|] == defs;
    }

    /** Turns a request body into updates, or finds the first fault in it. */
    method ParseUpdates(payload: Json) returns (r: Checked<seq<Update>>)
      ensures r == Check(defs, payload)
    {
      var parsed := Items(payload);
      if parsed.Invalid? { return Invalid(parsed.fault); }
      var items := parsed.value;
      var updates: seq<Update> := [];
      var seen: set<string> := {};
      assert items[0..] == items;
      for i := 0 to |items|
        invariant CheckAll(defs, items[i..], seen).Invalid? ==>
          CheckAll(defs, items, {}) == CheckAll(defs, items[i..], seen)
        invariant CheckAll(defs, items[i..], seen).Valid? ==>
          && CheckAll(defs, items, {}).Valid?
          && CheckAll(defs, items, {}).value == updates + CheckAll(defs, items[i..], seen).value
      {
        assert items[i..][1..] == items[i + 1..];
        var item := CheckItem(defs, items[i], seen);
        if item.Invalid? { return Invalid(item.fault); }
        seen := seen + {item.value.endpoint};
        updates := updates + [item.value];
      }
      assert CheckAll(defs, items, {}).value == updates;
      return Valid(updates);
    }

    /** The state that the updates make, on a copy. */
    method UpdatedCopy(updates: seq<Update>) returns (next: StateMap)
      ensures next == ApplyAll(defs, state, updates)
    {
      next := state;
      for i := 0 to |updates|
        invariant ApplyAll(defs, state, updates) == ApplyAll(defs, next, updates[i..])
      {
        var u := updates[i];
        assert updates[i..][1..] == updates[i + 1..];
        if u.endpoint in next {
          next := next[u.endpoint := ApplyOne(defs, next[u.endpoint], u)];
        }
      }
    }

    /**
     * Writes a temporary file and renames it. At every moment the state file is as before or
     * holds the new payload; it holds the new one if the rename was reached and worked, whether or
     * not removing the temporary file throws afterwards.
     */
    method Persist(next: StateMap, luck: Luck) returns (threw: bool, ghost trail: seq<Disk>)
      requires Proper(defs, next)
      modifies this`file, this`temp, this`hasPersistedState
      ensures threw <==> !AllWell(luck)
      ensures file == if luck.throws.Nothing? then Holding(PayloadOf(defs, next)) else old(file)
      ensures hasPersistedState == (old(hasPersistedState) || luck.throws.Nothing?)
      ensures !luck.throws.Mkdir? && !luck.cleanUpThrows ==> temp == Missing
      ensures Trail(trail, old(OnDisk()), OnDisk())
      ensures forall i :: 0 <= i < |trail| ==>
        || trail[i].file == old(file)
        || (luck.throws.Nothing? && trail[i].file == Holding(PayloadOf(defs, next)))
    {
      trail := [OnDisk()];
      if luck.throws.Mkdir? { return true, trail; }
      threw := false;
      temp := Unreadable;
      trail := trail + [OnDisk()];
      if luck.throws.Write? {
        temp := luck.throws.left;
        threw := true;
      } else {
        temp := Holding(PayloadOf(defs, next));
        trail := trail + [OnDisk()];
        if luck.throws.Rename? {
          threw := true;
        } else {
          file, temp := temp, Missing;
          hasPersistedState := true;
        }
      }
      trail := trail + [OnDisk()];
      if luck.cleanUpThrows { return true, trail; }
      temp := Missing;
      trail := trail + [OnDisk()];
    }

    /** In memory nothing changes unless the body is accepted and persisting does not throw. */
    method ApplyEndpointUpdates(payload: Json, persist: bool, luck: Luck) returns (reply: Reply, ghost trail: seq<Disk>)
      requires Sound()
      modifies this
      ensures Sound()
      ensures var outcome := Outcome(defs, old(state), payload);
        && (reply.Rejected? <==> outcome.None?)
        && (reply.Rejected? ==> Check(defs, payload) == Invalid(reply.fault))
        && (reply.Threw? <==> outcome.Some? && persist && !AllWell(luck))
        && state == (if reply.Accepted? then outcome.value else old(state))
        && if outcome.Some? && persist && luck.throws.Nothing? then
             && Proper(defs, outcome.value)
             && file == Holding(PayloadOf(defs, outcome.value)) && hasPersistedState
           else file == old(file) && hasPersistedState == old(hasPersistedState)
      ensures Trail(trail, old(OnDisk()), OnDisk())
      ensures forall i :: 0 <= i < |trail| ==>
        || trail[i].file == old(file)
        || (luck.throws.Nothing?
            && Outcome(defs, old(state), payload).Some? && Proper(defs, Outcome(defs, old(state), payload).value)
            && trail[i].file == Holding(PayloadOf(defs, Outcome(defs, old(state), payload).value)))
    {
      trail := [OnDisk()];
      var updates := ParseUpdates(payload);
      if updates.Invalid? { return Rejected(updates.fault), trail; }
      var next := UpdatedCopy(updates.value);
      OutcomeIsProper(defs, state, payload);
      if persist {
        var threw;
        threw, trail := Persist(next, luck);
        if threw { return Threw, trail; }
      }
      state := next;
      reply := Accepted;
    }

    /**
     * A posted body. It is all or nothing in memory; the file follows unless only the clean-up
     * throws, which leaves the file ahead of memory. At every moment, a restart would make the
     * state that a restart made before or the one that was asked for.
     */
    method Post(payload: Json, luck: Luck) returns (reply: Reply, ghost trail: seq<Disk>)
      requires Sound()
      modifies this
      ensures Sound()
      ensures var outcome := Outcome(defs, old(state), payload);
        && (reply.Accepted? <==> outcome.Some? && AllWell(luck))
        && state == (if reply.Accepted? then outcome.value else old(state))
        && Restored(defs, file) == (if outcome.Some? && luck.throws.Nothing? then outcome.value
                                    else old(Restored(defs, file)))
        && Trail(trail, old(OnDisk()), OnDisk())
        && RestoresOneOf(defs, trail, {old(Restored(defs, file))}
             + if outcome.Some? && luck.throws.Nothing? then {outcome.value} else {})
    {
      reply, trail := ApplyEndpointUpdates(payload, true, luck);
      ghost var outcome := Outcome(defs, old(state), payload);
      if outcome.Some? && Proper(defs, outcome.value) { RestoredFromPersisted(defs, outcome.value); }
    }

    /** Back to the defaults, in the same way. */
    method Reset(luck: Luck) returns (threw: bool, ghost trail: seq<Disk>)
      requires Sound()
      modifies this
      ensures Sound()
      ensures threw <==> !AllWell(luck)
      ensures state == if threw then old(state) else Defaults(defs)
      ensures Restored(defs, file) == if luck.throws.Nothing? then Defaults(defs) else old(Restored(defs, file))
      ensures Trail(trail, old(OnDisk()), OnDisk())
      ensures RestoresOneOf(defs, trail, {old(Restored(defs, file))}
        + if luck.throws.Nothing? then {Defaults(defs)} else {})
    {
      var next := DefaultState();
      DefaultsAreProper(defs);
      threw, trail := Persist(next, luck);
      RestoredFromPersisted(defs, next);
      if !threw { state := next; }
    }

    /** One request. */
    method Handle(r: Request) returns (ghost trail: seq<Disk>)
      requires Sound()
      modifies this
      ensures Sound() && state == After(defs, old(state), r)
      ensures Restored(defs, file) == if Renames(defs, old(state), r) then Target(defs, old(state), r).value
                                      else old(Restored(defs, file))
      ensures Trail(trail, old(OnDisk()), OnDisk())
      ensures RestoresOneOf(defs, trail, {old(Restored(defs, file)), Restored(defs, file)})
    {
      match r {
        case Posted(payload, luck) => var reply; reply, trail := Post(payload, luck);
        case ResetAll(luck) => var threw; threw, trail := Reset(luck);
      }
    }

    /**
     * Any sequence of requests, whatever throws: what memory and the file hold in the end, and a
     * process that is killed at any moment restarts with what the file held after some prefix.
     */
    method Serve(requests: seq<Request>) returns (ghost trail: seq<Disk>)
      requires Durable()
      modifies this
      ensures Sound() && state == AfterAll(defs, old(state), requests)
      ensures Restored(defs, file) == OnFile(defs, old(state), requests)
      ensures Trail(trail, old(OnDisk()), OnDisk())
      ensures forall i :: 0 <= i < |trail| ==> RestoresPrefix(defs, old(state), requests, trail[i])
    {
      trail := [OnDisk()];
      assert requests[..0] == [];
      for i := 0 to |requests|
        invariant Sound() && state == AfterAll(defs, old(state), requests[..i])
        invariant Restored(defs, file) == OnFile(defs, old(state), requests[..i])
        invariant Trail(trail, old(OnDisk()), OnDisk())
        invariant forall k :: 0 <= k < |trail| ==> RestoresPrefix(defs, old(state), requests, trail[k])
      {
        assert requests[..i + 1][..i] == requests[..i];
        ghost var more := Handle(requests[i]);
        RestoresMore(defs, old(state), requests, i, more);
        trail := trail + more;
      }
      assert requests[..|requests|] == requests;
    }
  }
}
