/** The `bridge` command's requests, and the dispatch from a parsed command line to a request. */
module BridgeCli {
  import opened Common
  import opened Text
  import opened BridgeArgs

  datatype Provider = CodexLb | OpenRouter

  datatype Depth = Shallow | Transport | Deep

  datatype OfficialMode = Passthrough | Gateway | Auto

  datatype Profile = NoProfile | OpenRouterOnly | CodexLbProfile | OpenAi

  /** The decoded standard input of `subagent-models set`; the rows are checked elsewhere. */
  datatype SubagentPayload = SubagentPayload(models: seq<string>, profile: Profile)

  datatype Request =
    | Status
    | AuthPriorityStatus
    | AuthPrioritySet(enabled: bool)
    | OpenRouterOnlyStatus
    | OpenRouterOnlySet(enabled: bool, noRestart: bool)
    | SubagentModelsList
    | SubagentModelsSet(payload: SubagentPayload, noRestart: bool)
    | Serve(settingsPath: string)
    | Ensure
    | Repair
    | Verify(level: Depth)
    | ProviderList
    | ProviderConfigure(provider: Provider, apiKey: string, host: Option<string>)
    | ProviderValidate(provider: Provider)
    | ProviderEnable(provider: Provider)
    | ProviderDisable(provider: Provider)
    | ProviderRemoveCredential(provider: Provider)
    | CatalogSync
    | CatalogStatus
    | ModelsList
    | ModelsSelect(publicIds: seq<string>)
    | ModelsRefresh
    | RouteList
    | RouteSetDefault(provider: Provider)
    | RouteOfficialModels(mode: OfficialMode)
    | RouteExplain(model: string)
    | Unmanage
    | Rollback(receiptId: string)

  datatype Invocation = Invocation(request: Request, json: bool, strict: bool, secrets: seq<string>)

  /** Standard input: its text, and what decoding it as a subagent-model document gives. */
  datatype Input = Input(text: string, payload: Result<SubagentPayload>)

  // ---- words ----

  /** The first positional. */
  datatype Area = WAuthPriority | WOpenRouterOnly | WSubagentModels | WStatus | WServe | WEnsure | WRepair
                | WVerify | WProvider | WCatalog | WModels | WRoute | WUnmanage | WRollback

  /** The second one. */
  datatype Action = DoStatus | DoOn | DoOff | DoList | DoSet | DoConfigure | DoValidate | DoEnable | DoDisable
                | DoRemoveCredential | DoSync | DoRefresh | DoSelect | DoSetDefault | DoOfficialModels
                | DoExplain

  /** A fixed third positional, or the value of `--level`. */
  datatype Target = ToCodexLb | ToOpenRouter | ToShallow | ToTransport | ToDeep | ToPassthrough | ToGateway
                | ToAuto

  function AreaText(w: Area): string {
    match w
    case WAuthPriority => "auth-priority"
    case WOpenRouterOnly => "openrouter-only"
    case WSubagentModels => "subagent-models"
    case WStatus => "status"
    case WServe => "serve"
    case WEnsure => "ensure"
    case WRepair => "repair"
    case WVerify => "verify"
    case WProvider => "provider"
    case WCatalog => "catalog"
    case WModels => "models"
    case WRoute => "route"
    case WUnmanage => "unmanage"
    case WRollback => "rollback"
  }

  function ActionText(w: Action): string {
    match w
    case DoStatus => "status"
    case DoOn => "on"
    case DoOff => "off"
    case DoList => "list"
    case DoSet => "set"
    case DoConfigure => "configure"
    case DoValidate => "validate"
    case DoEnable => "enable"
    case DoDisable => "disable"
    case DoRemoveCredential => "remove-credential"
    case DoSync => "sync"
    case DoRefresh => "refresh"
    case DoSelect => "select"
    case DoSetDefault => "set-default"
    case DoOfficialModels => "official-models"
    case DoExplain => "explain"
  }

  function TargetText(w: Target): string {
    match w
    case ToCodexLb => "codex-lb"
    case ToOpenRouter => "openrouter"
    case ToShallow => "shallow"
    case ToTransport => "transport"
    case ToDeep => "deep"
    case ToPassthrough => "passthrough"
    case ToGateway => "gateway"
    case ToAuto => "auto"
  }

  lemma AreasDiffer(v: Area, w: Area)
    ensures AreaText(v) == AreaText(w) ==> v == w
    ensures AreaText(v) != [] && !IsOption(AreaText(v))
  {
  }

  lemma ActionsDiffer(v: Action, w: Action)
    ensures ActionText(v) == ActionText(w) ==> v == w
    ensures ActionText(v) != [] && !IsOption(ActionText(v))
  {
  }

  lemma TargetsDiffer(v: Target, w: Target)
    ensures TargetText(v) == TargetText(w) ==> v == w
    ensures TargetText(v) != [] && !IsOption(TargetText(v))
  {
  }

  // ---- dispatch ----

  /** The first positional; it defaults to `status`. */
  predicate IsArea(a: Args, w: Area) {
    if a.positionals == [] then w == WStatus else a.positionals[0] == AreaText(w)
  }

  /** The second positional. */
  predicate Does(a: Args, w: Action) { |a.positionals| >= 2 && a.positionals[1] == ActionText(w) }

  /** How many positionals there are at most: `undefined` from position n on. */
  predicate UpTo(a: Args, n: nat) { |a.positionals| <= n }

  /** A subcommand's own option list. */
  function Allowing(a: Args, flags: set<Opt>, values: set<Opt>, r: Result<Request>): Result<Request> {
    if a.flags <= flags && a.values.Keys <= values then r else Failure(OptionNotAllowed)
  }

  function Confirmed(a: Args, r: Result<Request>): Result<Request> {
    if Confirm in a.flags then r else Failure(ConfirmationRequired)
  }

  function ProviderOf(s: string): Option<Provider> {
    if s == TargetText(ToCodexLb) then Some(CodexLb) else if s == TargetText(ToOpenRouter) then Some(OpenRouter) else None
  }

  function WithProvider(s: string, r: Provider -> Request): Result<Request> {
    match ProviderOf(s)
    case None => Failure(ProviderInvalid)
    case Some(p) => Success(r(p))
  }

  function DepthOf(s: string): Option<Depth> {
    if s == TargetText(ToShallow) then Some(Shallow) else if s == TargetText(ToTransport) then Some(Transport)
    else if s == TargetText(ToDeep) then Some(Deep) else None
  }

  function ModeOf(s: string): Option<OfficialMode> {
    if s == TargetText(ToPassthrough) then Some(Passthrough) else if s == TargetText(ToGateway) then Some(Gateway)
    else if s == TargetText(ToAuto) then Some(Auto) else None
  }

  /** A value option, with a default when it is absent. */
  function ValueOr(a: Args, o: Opt, default: string): string { if o in a.values then a.values[o] else default }

  const SETTINGS_FILE := "desktop-bridge-settings.json"

  const MAX_SECRET_BYTES := 64 * 1024

  function Utf8Length(s: string): nat {
    if s == [] then 0
    else (if s[0] < '\U{0080}' then 1 else if s[0] < '\U{0800}' then 2 else if s[0] < '\U{10000}' then 3 else 4)
         + Utf8Length(s[1..])
  }

  /** `raw.split(',')`. */
  function SplitCommas(raw: string): seq<string> {
    if raw == [] then [[]]
    else
      var rest := SplitCommas(raw[1..]);
      if raw[0] == ',' then [[]] + rest
      else if rest == [] then [[raw[0]]] else [[raw[0]] + rest[0]] + rest[1..]
  }

  function TrimmedParts(parts: seq<string>): seq<string> {
    if parts == [] then []
    else (if Trim(parts[0]) != [] then [Trim(parts[0])] else []) + TrimmedParts(parts[1..])
  }

  function PublicIds(raw: string): seq<string> { TrimmedParts(SplitCommas(raw)) }

  function ConfigureRequest(a: Args, p: Provider, input: Input): Result<Request> {
    if ApiKeyStdin !in a.flags then Failure(ApiKeyStdinRequired)
    else if p == CodexLb && Host !in a.values then Failure(HostRequired)
    else
      var key := Trim(input.text);
      if key == [] then Failure(ApiKeyEmpty)
      else if Utf8Length(key) > MAX_SECRET_BYTES then Failure(ApiKeyTooLarge)
      else Success(ProviderConfigure(p, key, if Host in a.values then Some(a.values[Host]) else None))
  }

  function ProviderRequest(a: Args, input: Input): Result<Request> {
    if Does(a, DoList) && UpTo(a, 2) then Allowing(a, {Json}, {}, Success(ProviderList))
    else if |a.positionals| != 3 then Failure(CommandInvalid)
    else
      var target := a.positionals[2];
      if Does(a, DoConfigure) then
        Allowing(a, {Json, ApiKeyStdin}, {Host},
          match ProviderOf(target)
          case None => Failure(ProviderInvalid)
          case Some(p) => ConfigureRequest(a, p, input))
      else if Does(a, DoValidate) then Allowing(a, {Json}, {}, WithProvider(target, p => ProviderValidate(p)))
      else if Does(a, DoEnable) then Allowing(a, {Json}, {}, WithProvider(target, p => ProviderEnable(p)))
      else if Does(a, DoDisable) then Allowing(a, {Json}, {}, WithProvider(target, p => ProviderDisable(p)))
      else if Does(a, DoRemoveCredential) then
        Allowing(a, {Json, Confirm}, {}, Confirmed(a, WithProvider(target, p => ProviderRemoveCredential(p))))
      else Failure(CommandInvalid)
  }

  function ModelsRequest(a: Args): Result<Request> {
    if Does(a, DoList) && UpTo(a, 2) then Allowing(a, {Json}, {}, Success(ModelsList))
    else if Does(a, DoRefresh) && UpTo(a, 2) then Allowing(a, {Json}, {}, Success(ModelsRefresh))
    else if Does(a, DoSelect) then Allowing(a, {Json}, {Set}, Success(ModelsSelect(PublicIds(ValueOr(a, Set, "")))))
    else Failure(CommandInvalid)
  }

  function RouteRequest(a: Args): Result<Request> {
    if Does(a, DoList) && UpTo(a, 2) then Allowing(a, {Json}, {}, Success(RouteList))
    else if |a.positionals| != 3 then Failure(CommandInvalid)
    else
      var target := a.positionals[2];
      if Does(a, DoSetDefault) then Allowing(a, {Json}, {}, WithProvider(target, p => RouteSetDefault(p)))
      else if Does(a, DoOfficialModels) then
        Allowing(a, {Json}, {},
          match ModeOf(target)
          case None => Failure(OfficialModelsModeInvalid)
          case Some(m) => Success(RouteOfficialModels(m)))
      else if Does(a, DoExplain) then Allowing(a, {Json}, {}, Success(RouteExplain(target)))
      else Failure(CommandInvalid)
  }

  function SwitchRequest(a: Args, input: Input): Result<Request>
    requires |a.positionals| == 2
  {
    if IsArea(a, WAuthPriority) then
      if Does(a, DoStatus) then Allowing(a, {Json}, {}, Success(AuthPriorityStatus))
      else if Does(a, DoOn) || Does(a, DoOff) then Allowing(a, {Json}, {}, Success(AuthPrioritySet(Does(a, DoOn))))
      else Failure(CommandInvalid)
    else if IsArea(a, WOpenRouterOnly) then
      if Does(a, DoStatus) then Allowing(a, {Json}, {}, Success(OpenRouterOnlyStatus))
      else if Does(a, DoOn) || Does(a, DoOff) then
        Allowing(a, {Json, NoRestart}, {}, Success(OpenRouterOnlySet(Does(a, DoOn), NoRestart in a.flags)))
      else Failure(CommandInvalid)
    else if Does(a, DoList) then Allowing(a, {Json}, {}, Success(SubagentModelsList))
    else if Does(a, DoSet) then
      Allowing(a, {Json, Stdin, NoRestart}, {},
        if Stdin !in a.flags then Failure(StdinRequired)
        else
          match input.payload
          case Failure(e) => Failure(e)
          case Success(payload) => Success(SubagentModelsSet(payload, NoRestart in a.flags)))
    else Failure(CommandInvalid)
  }

  function LoneRequest(a: Args): Result<Request>
    requires |a.positionals| <= 1
  {
    if IsArea(a, WStatus) then Allowing(a, {Json}, {}, Success(Status))
    else if IsArea(a, WServe) then
      var path := ValueOr(a, Settings, "");
      Allowing(a, {Json, Supervised}, {Settings},
        if !IsAbsolute(path) then Failure(SettingsPathNotAbsolute)
        else if Basename(path) != SETTINGS_FILE then Failure(SettingsPathInvalid)
        else Success(Serve(path)))
    else if IsArea(a, WEnsure) then Allowing(a, {Json}, {}, Success(Ensure))
    else if IsArea(a, WRepair) then Allowing(a, {Json}, {}, Success(Repair))
    else if IsArea(a, WVerify) then
      Allowing(a, {Json, Strict, RequireReady}, {Level},
        match DepthOf(ValueOr(a, Level, TargetText(ToShallow)))
        case None => Failure(LevelInvalid)
        case Some(d) => Success(Verify(d)))
    else if IsArea(a, WUnmanage) then Allowing(a, {Json, Confirm}, {}, Confirmed(a, Success(Unmanage)))
    else Failure(CommandInvalid)
  }

  function RequestOf(a: Args, input: Input): Result<Request> {
    if IsArea(a, WProvider) then ProviderRequest(a, input)
    else if IsArea(a, WModels) then ModelsRequest(a)
    else if IsArea(a, WRoute) then RouteRequest(a)
    else if UpTo(a, 1) then LoneRequest(a)
    else if !UpTo(a, 2) then Failure(CommandInvalid)
    else if IsArea(a, WAuthPriority) || IsArea(a, WOpenRouterOnly) || IsArea(a, WSubagentModels) then SwitchRequest(a, input)
    else if IsArea(a, WCatalog) && Does(a, DoSync) then Allowing(a, {Json}, {}, Success(CatalogSync))
    else if IsArea(a, WCatalog) && Does(a, DoStatus) then Allowing(a, {Json}, {}, Success(CatalogStatus))
    else if IsArea(a, WRollback) then Allowing(a, {Json, Confirm}, {}, Confirmed(a, Success(Rollback(a.positionals[1]))))
    else Failure(CommandInvalid)
  }

  function SecretsOf(r: Request): seq<string> { if r.ProviderConfigure? then [r.apiKey] else [] }

  function Invoked(a: Args, r: Request): Invocation {
    Invocation(r, Json in a.flags, Strict in a.flags || RequireReady in a.flags, SecretsOf(r))
  }

  /** The whole way from argv to an invocation. */
  function ParsedInvocation(args: seq<string>, input: Input): Result<Invocation> {
    if !NoSecrets(args) then Failure(SecretArgvForbidden)
    else
      match Parse(args)
      case Failure(e) => Failure(e)
      case Success(a) =>
        match RequestOf(a, input)
        case Failure(e) => Failure(e)
        case Success(r) => Success(Invoked(a, r))
  }

  method ParseInvocation(args: seq<string>, input: Input) returns (r: Result<Invocation>)
    ensures r == ParsedInvocation(args, input)
  {
    hide RequestOf, NoSecrets, Parse;
    var secret := HasSecretArgv(args);
    if secret { return Failure(SecretArgvForbidden); }
    var parsed := ParseArgs(args);
    if parsed.Failure? { return Failure(parsed.error); }
    var request := RequestOf(parsed.value, input);
    if request.Failure? { return Failure(request.error); }
    r := Success(Invoked(parsed.value, request.value));
  }

  // ---- printing requests ----

  /** Non-empty, trimmed and without a comma. */
  predicate Ids(ids: seq<string>) { forall id | id in ids :: id != [] && Trim(id) == id && ',' !in id }

  /** The requests a command line can express. */
  predicate Expressible(r: Request) {
    match r
    case Serve(path) => IsAbsolute(path) && Basename(path) == SETTINGS_FILE
    case ProviderConfigure(p, key, host) =>
      && key != [] && Trim(key) == key && Utf8Length(key) <= MAX_SECRET_BYTES
      && (p == CodexLb ==> host.Some?) && (host.Some? ==> host.value != [] && !IsOption(host.value))
    case ModelsSelect(ids) => Ids(ids)
    case RouteExplain(model) => !IsOption(model)
    case Rollback(id) => !IsOption(id)
    case _ => true
  }

  function ProviderWord(p: Provider): Target { if p == CodexLb then ToCodexLb else ToOpenRouter }

  function DepthWord(d: Depth): Target { match d case Shallow => ToShallow case Transport => ToTransport case Deep => ToDeep }

  function ModeWord(m: OfficialMode): Target {
    match m case Passthrough => ToPassthrough case Gateway => ToGateway case Auto => ToAuto
  }

  function JoinCommas(ids: seq<string>): string {
    if ids == [] then [] else if |ids| == 1 then ids[0] else ids[0] + "," + JoinCommas(ids[1..])
  }

  /** The value of `--set`: a leading comma shields a first id that looks like an option. */
  function SetValue(ids: seq<string>): string {
    if ids != [] && IsOption(ids[0]) then "," + JoinCommas(ids) else JoinCommas(ids)
  }

  function AreaOf(r: Request): Area {
    match r
    case Status => WStatus
    case AuthPriorityStatus | AuthPrioritySet(_) => WAuthPriority
    case OpenRouterOnlyStatus | OpenRouterOnlySet(_, _) => WOpenRouterOnly
    case SubagentModelsList | SubagentModelsSet(_, _) => WSubagentModels
    case Serve(_) => WServe
    case Ensure => WEnsure
    case Repair => WRepair
    case Verify(_) => WVerify
    case ProviderList | ProviderConfigure(_, _, _) | ProviderValidate(_) | ProviderEnable(_) | ProviderDisable(_)
       | ProviderRemoveCredential(_) => WProvider
    case CatalogSync | CatalogStatus => WCatalog
    case ModelsList | ModelsSelect(_) | ModelsRefresh => WModels
    case RouteList | RouteSetDefault(_) | RouteOfficialModels(_) | RouteExplain(_) => WRoute
    case Unmanage => WUnmanage
    case Rollback(_) => WRollback
  }

  function ActionOf(r: Request): Option<Action> {
    match r
    case AuthPriorityStatus | OpenRouterOnlyStatus | CatalogStatus => Some(DoStatus)
    case AuthPrioritySet(on) => Some(if on then DoOn else DoOff)
    case OpenRouterOnlySet(on, _) => Some(if on then DoOn else DoOff)
    case SubagentModelsList | ProviderList | ModelsList | RouteList => Some(DoList)
    case SubagentModelsSet(_, _) => Some(DoSet)
    case ProviderConfigure(_, _, _) => Some(DoConfigure)
    case ProviderValidate(_) => Some(DoValidate)
    case ProviderEnable(_) => Some(DoEnable)
    case ProviderDisable(_) => Some(DoDisable)
    case ProviderRemoveCredential(_) => Some(DoRemoveCredential)
    case CatalogSync => Some(DoSync)
    case ModelsSelect(_) => Some(DoSelect)
    case ModelsRefresh => Some(DoRefresh)
    case RouteSetDefault(_) => Some(DoSetDefault)
    case RouteOfficialModels(_) => Some(DoOfficialModels)
    case RouteExplain(_) => Some(DoExplain)
    case _ => None
  }

  /** The positional after those, if any. */
  function LastText(r: Request): Option<string> {
    match r
    case ProviderConfigure(p, _, _) => Some(TargetText(ProviderWord(p)))
    case ProviderValidate(p) => Some(TargetText(ProviderWord(p)))
    case ProviderEnable(p) => Some(TargetText(ProviderWord(p)))
    case ProviderDisable(p) => Some(TargetText(ProviderWord(p)))
    case ProviderRemoveCredential(p) => Some(TargetText(ProviderWord(p)))
    case RouteSetDefault(p) => Some(TargetText(ProviderWord(p)))
    case RouteOfficialModels(m) => Some(TargetText(ModeWord(m)))
    case RouteExplain(model) => Some(model)
    case Rollback(id) => Some(id)
    case _ => None
  }

  function Printed(r: Request): seq<string> {
    [AreaText(AreaOf(r))]
    + (match ActionOf(r) case None => [] case Some(w) => [ActionText(w)])
    + (match LastText(r) case None => [] case Some(t) => [t])
  }

  /** The flags that must be given. */
  function Required(r: Request): set<Opt> {
    match r
    case OpenRouterOnlySet(_, noRestart) => if noRestart then {NoRestart} else {}
    case SubagentModelsSet(_, noRestart) => if noRestart then {Stdin, NoRestart} else {Stdin}
    case ProviderConfigure(_, _, _) => {ApiKeyStdin}
    case ProviderRemoveCredential(_) => {Confirm}
    case Unmanage => {Confirm}
    case Rollback(_) => {Confirm}
    case _ => {}
  }

  /** The flags that may be given, the required ones among them. */
  function Permitted(r: Request): set<Opt> {
    match r
    case OpenRouterOnlySet(_, noRestart) => if noRestart then {Json, NoRestart} else {Json}
    case SubagentModelsSet(_, noRestart) => if noRestart then {Json, Stdin, NoRestart} else {Json, Stdin}
    case ProviderConfigure(_, _, _) => {Json, ApiKeyStdin}
    case ProviderRemoveCredential(_) => {Json, Confirm}
    case Unmanage => {Json, Confirm}
    case Rollback(_) => {Json, Confirm}
    case Serve(_) => {Json, Supervised}
    case Verify(_) => {Json, Strict, RequireReady}
    case _ => {Json}
  }

  function ValuesOf(r: Request): map<Opt, string> {
    match r
    case Serve(path) => map[Settings := path]
    case Verify(d) => map[Level := TargetText(DepthWord(d))]
    case ProviderConfigure(_, _, host) => if host.Some? then map[Host := host.value] else map[]
    case ModelsSelect(ids) => if ids == [] then map[] else map[Set := SetValue(ids)]
    case _ => map[]
  }

  /** Standard input carries the request's own payload. */
  predicate Feeds(input: Input, r: Request) {
    match r
    case ProviderConfigure(_, key, _) => Trim(input.text) == key
    case SubagentModelsSet(payload, _) => input.payload == Success(payload)
    case _ => true
  }

  /** A parsed command line that spells the request. */
  predicate Spells(a: Args, r: Request) {
    && a.positionals == Printed(r) && a.values == ValuesOf(r)
    && Required(r) <= a.flags <= Permitted(r)
  }

  lemma {:induction false} SplitOfPlain(id: string)
    requires ',' !in id
    ensures SplitCommas(id) == [id]
  {
    if id != [] {
      SplitOfPlain(id[1..]);
      assert [id[0]] + id[1..] == id;
    }
  }

  lemma {:induction false} SplitOfComma(id: string, rest: string)
    requires ',' !in id
    ensures SplitCommas(id + "," + rest) == [id] + SplitCommas(rest)
  {
    var raw := id + "," + rest;
    if id == [] {
      assert raw[0] == ',' && raw[1..] == rest;
    } else {
      assert raw[0] == id[0] && raw[1..] == id[1..] + "," + rest;
      SplitOfComma(id[1..], rest);
      var tail := SplitCommas(rest);
      assert ([id[1..]] + tail)[0] == id[1..] && ([id[1..]] + tail)[1..] == tail && [id[0]] + id[1..] == id;
    }
  }

  lemma {:induction false} IdsOfJoin(ids: seq<string>)
    requires ids != [] && Ids(ids)
    ensures PublicIds(JoinCommas(ids)) == ids && JoinCommas(ids) != [] && JoinCommas(ids)[0] == ids[0][0]
  {
    hide Trim;
    assert ids[0] in ids;
    if |ids| == 1 {
      SplitOfPlain(ids[0]);
      assert TrimmedParts([]) == [];
      assert PublicIds(JoinCommas(ids)) == [ids[0]] + [];
    } else {
      assert forall id | id in ids[1..] :: id in ids;
      IdsOfJoin(ids[1..]);
      SplitOfComma(ids[0], JoinCommas(ids[1..]));
      var rest := SplitCommas(JoinCommas(ids[1..]));
      assert ([ids[0]] + rest)[1..] == rest;
      assert PublicIds(JoinCommas(ids)) == [ids[0]] + ids[1..];
    }
  }

  lemma LeadingComma(raw: string)
    ensures PublicIds("," + raw) == PublicIds(raw)
  {
    SplitOfComma([], raw);
    assert [] + "," + raw == "," + raw;
    var rest := SplitCommas(raw);
    assert ([[]] + rest)[1..] == rest;
    TrimOfTrimmed([]);
  }

  /** The printed `--set` value reads back as the ids, and may follow its option. */
  lemma IdsOfSetValue(ids: seq<string>)
    requires ids != [] && Ids(ids)
    ensures PublicIds(SetValue(ids)) == ids && SetValue(ids) != [] && !IsOption(SetValue(ids))
  {
    assert ids[0] in ids;
    IdsOfJoin(ids);
    LeadingComma(JoinCommas(ids));
    if !IsOption(ids[0]) {
      JoinStarts(ids);
    }
    hide PublicIds, JoinCommas, Trim;
  }

  lemma JoinStarts(ids: seq<string>)
    requires ids != [] && ids[0] != [] && !IsOption(ids[0])
    ensures !IsOption(JoinCommas(ids))
  {
  }

  // ---- dispatch inverts printing ----

  /** The printed area and action read as themselves and as no other word. */
  lemma PrintedReads(a: Args, r: Request)
    requires a.positionals == Printed(r)
    ensures forall v :: IsArea(a, v) <==> v == AreaOf(r)
    ensures ActionOf(r).Some? ==> forall v :: Does(a, v) <==> v == ActionOf(r).value
    ensures |a.positionals| == 1 + (if ActionOf(r).Some? then 1 else 0) + (if LastText(r).Some? then 1 else 0)
    ensures LastText(r).Some? ==> a.positionals[|a.positionals| - 1] == LastText(r).value
  {
    hide AreaText, ActionText, LastText, AreaOf, ActionOf;
    assert a.positionals[0] == AreaText(AreaOf(r));
    assert ActionOf(r).Some? ==> a.positionals[1] == ActionText(ActionOf(r).value);
    forall v ensures IsArea(a, v) <==> v == AreaOf(r) { AreasDiffer(v, AreaOf(r)); }
    if ActionOf(r).Some? {
      forall v ensures Does(a, v) <==> v == ActionOf(r).value { ActionsDiffer(v, ActionOf(r).value); }
    }
  }

  lemma TargetsRead()
    ensures forall p :: ProviderOf(TargetText(ProviderWord(p))) == Some(p)
    ensures forall d :: DepthOf(TargetText(DepthWord(d))) == Some(d)
    ensures forall m :: ModeOf(TargetText(ModeWord(m))) == Some(m)
  {
    hide TargetText;
    forall p ensures ProviderOf(TargetText(ProviderWord(p))) == Some(p) {
      TargetsDiffer(ProviderWord(p), ToCodexLb);
    }
    forall d ensures DepthOf(TargetText(DepthWord(d))) == Some(d) {
      TargetsDiffer(DepthWord(d), ToShallow);
      TargetsDiffer(DepthWord(d), ToTransport);
    }
    forall m ensures ModeOf(TargetText(ModeWord(m))) == Some(m) {
      TargetsDiffer(ModeWord(m), ToPassthrough);
      TargetsDiffer(ModeWord(m), ToGateway);
    }
  }

  /** Which part of the dispatch an area's requests go through. */
  lemma AreaDispatch(a: Args, w: Area, input: Input)
    requires forall v :: IsArea(a, v) <==> v == w
    ensures w == WProvider ==> RequestOf(a, input) == ProviderRequest(a, input)
    ensures w == WModels ==> RequestOf(a, input) == ModelsRequest(a)
    ensures w == WRoute ==> RequestOf(a, input) == RouteRequest(a)
    ensures w !in {WProvider, WModels, WRoute} && |a.positionals| <= 1 ==> RequestOf(a, input) == LoneRequest(a)
    ensures w in {WAuthPriority, WOpenRouterOnly, WSubagentModels} && |a.positionals| == 2 ==>
              RequestOf(a, input) == SwitchRequest(a, input)
  {
    hide IsArea, ProviderRequest, ModelsRequest, RouteRequest, LoneRequest, SwitchRequest;
  }

  lemma SwitchOfPrinted(r: Request, a: Args, input: Input)
    requires AreaOf(r) in {WAuthPriority, WOpenRouterOnly}
    requires Spells(a, r) && Feeds(input, r) && Expressible(r)
    ensures RequestOf(a, input) == Success(r)
  {
    hide RequestOf, AreaText, ActionText, TargetText, IsArea, Does, Printed, Expressible;
    PrintedReads(a, r);
    AreaDispatch(a, AreaOf(r), input);
    match r {
      case AuthPriorityStatus => assert SwitchRequest(a, input) == Success(r);
      case AuthPrioritySet(_) => assert SwitchRequest(a, input) == Success(r);
      case OpenRouterOnlyStatus => assert SwitchRequest(a, input) == Success(r);
      case OpenRouterOnlySet(_, _) => assert SwitchRequest(a, input) == Success(r);
      case _ =>
    }
  }

  lemma SubagentModelsOfPrinted(r: Request, a: Args, input: Input)
    requires AreaOf(r) == WSubagentModels
    requires Spells(a, r) && Feeds(input, r) && Expressible(r)
    ensures RequestOf(a, input) == Success(r)
  {
    hide RequestOf, AreaText, ActionText, TargetText, IsArea, Does, Printed, Expressible;
    PrintedReads(a, r);
    AreaDispatch(a, AreaOf(r), input);
    match r {
      case SubagentModelsList => assert SwitchRequest(a, input) == Success(r);
      case SubagentModelsSet(_, _) => assert SwitchRequest(a, input) == Success(r);
      case _ =>
    }
  }

  lemma LoneOfPrinted(r: Request, a: Args, input: Input)
    requires AreaOf(r) in {WStatus, WEnsure, WRepair, WUnmanage}
    requires Spells(a, r) && Feeds(input, r) && Expressible(r)
    ensures RequestOf(a, input) == Success(r)
  {
    hide RequestOf, AreaText, ActionText, TargetText, IsArea, Does, Printed, Basename, DepthOf, Feeds, Expressible;
    PrintedReads(a, r);
    AreaDispatch(a, AreaOf(r), input);
    match r {
      case Status => assert LoneRequest(a) == Success(r);
      case Ensure => assert LoneRequest(a) == Success(r);
      case Repair => assert LoneRequest(a) == Success(r);
      case Unmanage => assert LoneRequest(a) == Success(r);
      case _ =>
    }
  }

  lemma LoneWithValueOfPrinted(r: Request, a: Args, input: Input)
    requires AreaOf(r) in {WServe, WVerify}
    requires Spells(a, r) && Feeds(input, r) && Expressible(r)
    ensures RequestOf(a, input) == Success(r)
  {
    hide RequestOf, AreaText, ActionText, TargetText, IsArea, Does, Printed, Basename, DepthOf, Feeds;
    PrintedReads(a, r);
    AreaDispatch(a, AreaOf(r), input);
    TargetsRead();
    match r {
      case Serve(_) => assert LoneRequest(a) == Success(r);
      case Verify(_) => assert LoneRequest(a) == Success(r);
      case _ =>
    }
  }

  lemma ProviderOfPrinted(r: Request, a: Args, input: Input)
    requires r.ProviderList? || r.ProviderValidate? || r.ProviderEnable?
    requires Spells(a, r) && Feeds(input, r) && Expressible(r)
    ensures RequestOf(a, input) == Success(r)
  {
    hide RequestOf, AreaText, ActionText, TargetText, IsArea, Does, Printed, ProviderOf, ConfigureRequest, Feeds, Expressible;
    PrintedReads(a, r);
    AreaDispatch(a, AreaOf(r), input);
    TargetsRead();
    match r {
      case ProviderList => assert ProviderRequest(a, input) == Success(r);
      case ProviderValidate(_) => assert ProviderRequest(a, input) == Success(r);
      case ProviderEnable(_) => assert ProviderRequest(a, input) == Success(r);
      case _ =>
    }
  }

  lemma CredentialOfPrinted(r: Request, a: Args, input: Input)
    requires r.ProviderConfigure? || r.ProviderDisable? || r.ProviderRemoveCredential?
    requires Spells(a, r) && Feeds(input, r) && Expressible(r)
    ensures RequestOf(a, input) == Success(r)
  {
    hide RequestOf, AreaText, ActionText, TargetText, IsArea, Does, Printed, ProviderOf, ConfigureRequest, Trim, Utf8Length;
    PrintedReads(a, r);
    AreaDispatch(a, AreaOf(r), input);
    TargetsRead();
    match r {
      case ProviderConfigure(_, _, _) =>
        ConfigureReads(r, a, input);
        assert ProviderRequest(a, input) == Success(r);
      case ProviderDisable(_) => assert ProviderRequest(a, input) == Success(r);
      case ProviderRemoveCredential(_) => assert ProviderRequest(a, input) == Success(r);
      case _ =>
    }
  }

  lemma ModelsOfPrinted(r: Request, a: Args, input: Input)
    requires AreaOf(r) == WModels
    requires Spells(a, r) && Feeds(input, r) && Expressible(r)
    ensures RequestOf(a, input) == Success(r)
  {
    hide RequestOf, AreaText, ActionText, TargetText, IsArea, Does, Printed, PublicIds, SetValue, Trim, Ids, Feeds;
    PrintedReads(a, r);
    AreaDispatch(a, AreaOf(r), input);
    NoIds();
    match r {
      case ModelsList => assert ModelsRequest(a) == Success(r);
      case ModelsRefresh => assert ModelsRequest(a) == Success(r);
      case ModelsSelect(ids) =>
        if ids != [] { IdsOfSetValue(ids); }
        assert ModelsRequest(a) == Success(r);
      case _ =>
    }
  }

  lemma RouteOfPrinted(r: Request, a: Args, input: Input)
    requires AreaOf(r) == WRoute
    requires Spells(a, r) && Feeds(input, r) && Expressible(r)
    ensures RequestOf(a, input) == Success(r)
  {
    hide RequestOf, AreaText, ActionText, TargetText, IsArea, Does, Printed, ProviderOf, ModeOf, Expressible, Feeds;
    PrintedReads(a, r);
    AreaDispatch(a, AreaOf(r), input);
    TargetsRead();
    match r {
      case RouteList => assert RouteRequest(a) == Success(r);
      case RouteSetDefault(_) => assert RouteRequest(a) == Success(r);
      case RouteOfficialModels(_) => assert RouteRequest(a) == Success(r);
      case RouteExplain(_) => assert RouteRequest(a) == Success(r);
      case _ =>
    }
  }

  lemma ConfigureReads(r: Request, a: Args, input: Input)
    requires r.ProviderConfigure? && Feeds(input, r) && Expressible(r)
    requires a.values == ValuesOf(r) && ApiKeyStdin in a.flags
    ensures ConfigureRequest(a, r.provider, input) == Success(r)
  {
    hide Trim, Utf8Length;
  }

  lemma OthersOfPrinted(r: Request, a: Args, input: Input)
    requires AreaOf(r) in {WCatalog, WRollback}
    requires Spells(a, r)
    ensures RequestOf(a, input) == Success(r)
  {
    hide AreaText, ActionText, TargetText, IsArea, Does, Printed, ProviderRequest, ModelsRequest, RouteRequest, SwitchRequest, LoneRequest;
    PrintedReads(a, r);
    match r {
      case CatalogSync => assert RequestOf(a, input) == Success(r);
      case CatalogStatus => assert RequestOf(a, input) == Success(r);
      case Rollback(id) => assert RequestOf(a, input) == Success(r);
      case _ =>
    }
  }

  lemma NoIds()
    ensures PublicIds("") == []
  {
    TrimOfTrimmed([]);
    hide Trim;
    var none: string := [];
    assert SplitCommas("") == [none] && [none][1..] == [];
  }

  lemma DispatchOfPrinted(r: Request, a: Args, input: Input)
    requires Spells(a, r) && Feeds(input, r) && Expressible(r)
    ensures RequestOf(a, input) == Success(r)
  {
    hide RequestOf, Spells, Feeds, Expressible;
    match AreaOf(r) {
      case WAuthPriority | WOpenRouterOnly => SwitchOfPrinted(r, a, input);
      case WSubagentModels => SubagentModelsOfPrinted(r, a, input);
      case WServe | WVerify => LoneWithValueOfPrinted(r, a, input);
      case WProvider =>
        if r.ProviderList? || r.ProviderValidate? || r.ProviderEnable? {
          ProviderOfPrinted(r, a, input);
        } else {
          CredentialOfPrinted(r, a, input);
        }
      case WModels => ModelsOfPrinted(r, a, input);
      case WRoute => RouteOfPrinted(r, a, input);
      case WCatalog | WRollback => OthersOfPrinted(r, a, input);
      case _ => LoneOfPrinted(r, a, input);
    }
  }

  /** Every request a command line can express, printed with its options anywhere among the positionals,
      parses back to itself. */
  lemma InvocationOfPrinted(r: Request, items: seq<Item>, input: Input)
    requires Expressible(r) && Feeds(input, r) && Printable(items) && Spells(Collect(items), r)
    ensures ParsedInvocation(Flatten(items), input) == Success(Invoked(Collect(items), r))
  {
    hide RequestOf, Spells, Feeds, Expressible, NoSecrets, Parse;
    FlattenHasNoSecrets(items, NO_ARGS);
    ParseOfFlatten(items);
    DispatchOfPrinted(r, Collect(items), input);
  }

  // ---- and gives nothing else ----

  /** What the argv parser guarantees of its pieces. */
  predicate Parsable(a: Args) {
    && (forall i | 0 <= i < |a.positionals| :: !IsOption(a.positionals[i]))
    && (forall o | o in a.values :: a.values[o] != [] && !IsOption(a.values[o]))
  }

  lemma {:induction false} CollectedIsParsable(items: seq<Item>, a: Args)
    requires PrintableFrom(items, a) && Parsable(a)
    ensures Parsable(CollectFrom(items, a))
    decreases |items|
  {
    if items != [] {
      CollectedIsParsable(items[1..], Collected(a, items[0]));
    }
  }

  lemma {:induction false} SplitHasNoCommas(raw: string)
    ensures SplitCommas(raw) != [] && forall part | part in SplitCommas(raw) :: ',' !in part
  {
    if raw != [] {
      SplitHasNoCommas(raw[1..]);
      var rest := SplitCommas(raw[1..]);
      assert rest[0] in rest;
    }
  }

  lemma {:induction false} PartsAreIds(parts: seq<string>)
    requires forall part | part in parts :: ',' !in part
    ensures Ids(TrimmedParts(parts))
  {
    if parts != [] {
      PartsAreIds(parts[1..]);
      assert parts[0] in parts;
      TrimIsTrimmed(parts[0]);
      TrimOfTrimmed(Trim(parts[0]));
      TrimIsPart(parts[0]);
      hide Trim;
      forall id | id in TrimmedParts(parts) ensures id != [] && Trim(id) == id && ',' !in id {
        assert id == Trim(parts[0]) || id in TrimmedParts(parts[1..]);
      }
    }
  }

  lemma TrimIsPart(s: string)
    ensures forall c | c in Trim(s) :: c in s
  {
    var e := TrimEnd(s);
    assert e == s[..|e|] && Trim(s) == e[LeadingSpaces(e)..];
  }

  lemma RequestIsExpressible(a: Args, input: Input)
    requires Parsable(a) && RequestOf(a, input).Success?
    ensures Expressible(RequestOf(a, input).value)
  {
    hide AreaText, ActionText, TargetText, Trim, Basename, Utf8Length, LastComponent;
    var r := RequestOf(a, input).value;
    if r.ModelsSelect? {
      ModelsSelectIsExpressible(ValueOr(a, Set, ""));
    } else if r.ProviderConfigure? {
      ConfigureIsExpressible(a, input);
    }
  }

  lemma ModelsSelectIsExpressible(raw: string)
    ensures Expressible(ModelsSelect(PublicIds(raw)))
  {
    SplitHasNoCommas(raw);
    PartsAreIds(SplitCommas(raw));
  }

  lemma ConfigureIsExpressible(a: Args, input: Input)
    requires Parsable(a) && RequestOf(a, input).Success? && RequestOf(a, input).value.ProviderConfigure?
    ensures Expressible(RequestOf(a, input).value)
  {
    hide AreaText, ActionText, TargetText, Trim, Utf8Length;
    TrimIsTrimmed(input.text);
    TrimOfTrimmed(Trim(input.text));
  }

  /** A request comes out of some command line and some standard input exactly when it is expressible. */
  lemma ParsedExactlyExpressible(r: Request)
    ensures (exists args, input :: Yields(args, input, r)) <==> Expressible(r)
  {
    hide RequestOf, Expressible, Parse, NoSecrets, Spells, Feeds;
    forall args, input | Yields(args, input, r) ensures Expressible(r) {
      var items := FlattenOfParse(args);
      CollectedIsParsable(items, NO_ARGS);
      RequestIsExpressible(Parse(args).value, input);
    }
    if Expressible(r) {
      var items, input := PrintedItems(r);
      InvocationOfPrinted(r, items, input);
      assert Yields(Flatten(items), input, r);
    }
  }

  predicate Yields(args: seq<string>, input: Input, r: Request) {
    ParsedInvocation(args, input).Success? && ParsedInvocation(args, input).value.request == r
  }

  function PositionalItems(texts: seq<string>): seq<Item> {
    if texts == [] then [] else [Positional(texts[0])] + PositionalItems(texts[1..])
  }

  function OptionItems(r: Request): seq<Item> {
    match r
    case OpenRouterOnlySet(_, noRestart) => if noRestart then [Flag(NoRestart)] else []
    case SubagentModelsSet(_, noRestart) => if noRestart then [Flag(Stdin), Flag(NoRestart)] else [Flag(Stdin)]
    case ProviderConfigure(_, _, host) =>
      if host.Some? then [Flag(ApiKeyStdin), Valued(Host, host.value)] else [Flag(ApiKeyStdin)]
    case ProviderRemoveCredential(_) => [Flag(Confirm)]
    case Unmanage => [Flag(Confirm)]
    case Rollback(_) => [Flag(Confirm)]
    case Serve(path) => [Valued(Settings, path)]
    case Verify(d) => [Valued(Level, TargetText(DepthWord(d)))]
    case ModelsSelect(ids) => if ids == [] then [] else [Valued(Set, SetValue(ids))]
    case _ => []
  }

  lemma FirstThen(i: Item, rest: seq<Item>, a: Args)
    ensures CollectFrom([i] + rest, a) == CollectFrom(rest, Collected(a, i))
    ensures PrintableFrom([i] + rest, a) <==> WellFormed(i) && New(a, i) && PrintableFrom(rest, Collected(a, i))
  {
    assert ([i] + rest)[1..] == rest;
  }

  lemma {:induction false} PositionalsThen(texts: seq<string>, rest: seq<Item>, a: Args)
    requires forall i | 0 <= i < |texts| :: !IsOption(texts[i])
    ensures var after := a.(positionals := a.positionals + texts);
            && CollectFrom(PositionalItems(texts) + rest, a) == CollectFrom(rest, after)
            && (PrintableFrom(PositionalItems(texts) + rest, a) <==> PrintableFrom(rest, after))
    decreases |texts|
  {
    hide CollectFrom, PrintableFrom, IsOption, PositionalItems;
    if texts == [] {
      NoPositionals(rest, a);
    } else {
      var first := Positional(texts[0]);
      FirstPositional(texts, rest, a);
      FirstThen(first, PositionalItems(texts[1..]) + rest, a);
      PositionalsThen(texts[1..], rest, Collected(a, first));
    }
  }

  lemma NoPositionals(rest: seq<Item>, a: Args)
    ensures PositionalItems([]) + rest == rest && a.(positionals := a.positionals + []) == a
  {
    assert [] + rest == rest && a.positionals + [] == a.positionals;
  }

  lemma FirstPositional(texts: seq<string>, rest: seq<Item>, a: Args)
    requires texts != []
    ensures PositionalItems(texts) + rest == [Positional(texts[0])] + (PositionalItems(texts[1..]) + rest)
    ensures var after := Collected(a, Positional(texts[0]));
            after.(positionals := after.positionals + texts[1..]) == a.(positionals := a.positionals + texts)
  {
    assert a.positionals + [texts[0]] + texts[1..] == a.positionals + texts;
  }

  lemma LastTextIsPositional(r: Request)
    requires Expressible(r) && LastText(r).Some?
    ensures !IsOption(LastText(r).value)
  {
    hide IsOption, TargetText, Basename;
    forall w ensures !IsOption(TargetText(w)) { TargetsDiffer(w, w); }
  }

  lemma PrintedArePositionals(r: Request)
    requires Expressible(r)
    ensures forall i | 0 <= i < |Printed(r)| :: !IsOption(Printed(r)[i])
  {
    hide AreaText, ActionText, IsOption, LastText, AreaOf, ActionOf, Expressible;
    AreasDiffer(AreaOf(r), AreaOf(r));
    if ActionOf(r).Some? { ActionsDiffer(ActionOf(r).value, ActionOf(r).value); }
    if LastText(r).Some? { LastTextIsPositional(r); }
  }

  lemma OneOption(i: Item, a: Args)
    requires WellFormed(i) && New(a, i)
    ensures PrintableFrom([i], a) && CollectFrom([i], a) == Collected(a, i)
  {
    FirstThen(i, [], a);
    assert [i] + [] == [i];
  }

  lemma TwoOptions(i: Item, j: Item, a: Args)
    requires WellFormed(i) && New(a, i) && WellFormed(j) && New(Collected(a, i), j)
    ensures PrintableFrom([i, j], a) && CollectFrom([i, j], a) == Collected(Collected(a, i), j)
  {
    FirstThen(i, [j], a);
    assert [i] + [j] == [i, j];
    OneOption(j, Collected(a, i));
  }

  /** The options of a request, added to its printed positionals. */
  ghost predicate OptionsSpellIt(r: Request) {
    var start := Args(Printed(r), {}, map[]);
    PrintableFrom(OptionItems(r), start) && Spells(CollectFrom(OptionItems(r), start), r)
  }

  lemma SwitchOptionsSpell(r: Request)
    requires Expressible(r) && (r.OpenRouterOnlySet? || r.SubagentModelsSet?)
    ensures OptionsSpellIt(r)
  {
    hide TargetText, Basename, SetValue, Printed, CollectFrom, PrintableFrom;
    var start, items := Args(Printed(r), {}, map[]), OptionItems(r);
    NoOptions(start);
    match r {
      case OpenRouterOnlySet(_, noRestart) => if noRestart { OneOption(items[0], start); }
      case SubagentModelsSet(_, noRestart) =>
        if noRestart { TwoOptions(items[0], items[1], start); } else { OneOption(items[0], start); }
    }
  }

  lemma ConfigureOptionsSpell(r: Request)
    requires Expressible(r) && r.ProviderConfigure?
    ensures OptionsSpellIt(r)
  {
    hide TargetText, Basename, SetValue, Printed, CollectFrom, PrintableFrom;
    var start, items := Args(Printed(r), {}, map[]), OptionItems(r);
    if r.host.Some? { TwoOptions(items[0], items[1], start); } else { OneOption(items[0], start); }
  }

  lemma ConfirmOptionsSpell(r: Request)
    requires Expressible(r) && (r.ProviderRemoveCredential? || r.Unmanage? || r.Rollback?)
    ensures OptionsSpellIt(r)
  {
    hide TargetText, Basename, SetValue, Printed, CollectFrom, PrintableFrom;
    OneOption(OptionItems(r)[0], Args(Printed(r), {}, map[]));
  }

  lemma ValueOptionsSpell(r: Request)
    requires Expressible(r) && (r.Serve? || r.Verify? || r.ModelsSelect?)
    ensures OptionsSpellIt(r)
  {
    hide TargetText, Basename, SetValue, Printed, CollectFrom, PrintableFrom;
    var start, items := Args(Printed(r), {}, map[]), OptionItems(r);
    NoOptions(start);
    match r {
      case Serve(_) => OneOption(items[0], start);
      case Verify(d) =>
        TargetsDiffer(DepthWord(d), DepthWord(d));
        OneOption(items[0], start);
      case ModelsSelect(ids) =>
        if ids != [] {
          IdsOfSetValue(ids);
          OneOption(items[0], start);
        }
    }
  }

  lemma OptionsSpell(r: Request)
    requires Expressible(r)
    ensures OptionsSpellIt(r)
  {
    hide OptionsSpellIt, Expressible;
    match r {
      case OpenRouterOnlySet(_, _) => SwitchOptionsSpell(r);
      case SubagentModelsSet(_, _) => SwitchOptionsSpell(r);
      case ProviderConfigure(_, _, _) => ConfigureOptionsSpell(r);
      case ProviderRemoveCredential(_) => ConfirmOptionsSpell(r);
      case Unmanage => ConfirmOptionsSpell(r);
      case Rollback(_) => ConfirmOptionsSpell(r);
      case Serve(_) => ValueOptionsSpell(r);
      case Verify(_) => ValueOptionsSpell(r);
      case ModelsSelect(_) => ValueOptionsSpell(r);
      case _ => PlainRequestsSpell(r);
    }
  }

  lemma PlainRequestsSpell(r: Request)
    requires OptionItems(r) == [] && Required(r) == {} && ValuesOf(r) == map[]
    ensures OptionsSpellIt(r)
  {
    hide Printed, CollectFrom, PrintableFrom, OptionItems;
    NoOptions(Args(Printed(r), {}, map[]));
  }

  lemma NoOptions(a: Args)
    ensures PrintableFrom([], a) && CollectFrom([], a) == a
  {
  }

  /** One command line for each expressible request: its positionals, then its options. */
  lemma PrintedItems(r: Request) returns (items: seq<Item>, input: Input)
    requires Expressible(r)
    ensures Printable(items) && Spells(Collect(items), r) && Feeds(input, r)
  {
    hide OptionItems, Printed, Spells;
    input := Input(if r.ProviderConfigure? then r.apiKey else [],
                   if r.SubagentModelsSet? then Success(r.payload) else Failure(StdinPayloadInvalid));
    items := PositionalItems(Printed(r)) + OptionItems(r);
    PrintedArePositionals(r);
    PositionalsThen(Printed(r), OptionItems(r), NO_ARGS);
    assert [] + Printed(r) == Printed(r);
    OptionsSpell(r);
  }
}
