/**
 The wire envelope of a state-aware request: a per-backend, per-phase config
 record taken apart into top-level fields and one backend section.
 */
module Envelope {
  import opened Options

  datatype Phase = Provision | Start | Exec | Stop | Deprovision

  datatype Backend = IsolationSession | Wslc

  /** A property name: one the code mentions, or any other. */
  datatype Key =
    | Version | PhaseField | Containment | SandboxId
    | Filesystem | Network | RuntimeConfig | Ui | Process | Telemetry
    | Section(backend: Backend) | PhaseName(phase: Phase)
    | Egress | Ingress | Default | Allow | Deny | HostLoopback | NetworkProxy
    | Other(name: string)

  type Fields = map<Key, Value>

  datatype Value =
    | Undefined
    | Null
    | Bool(bool)
    | Number(real)
    | Str(text: string)
    | Arr(items: seq<Value>)
    | Obj(fields: map<Key, Value>)

  /** A JavaScript object whose properties are added and deleted in place. */
  class Record {
    var fields: Fields

    constructor (fields: Fields)
      ensures this.fields == fields
    {
      this.fields := fields;
    }

    method Put(key: Key, value: Value)
      modifies this
      ensures fields == old(fields)[key := value]
    {
      fields := fields[key := value];
    }

    method Delete(key: Key)
      modifies this
      ensures fields == old(fields) - {key}
    {
      fields := fields - {key};
    }
  }

  /** The request besides its config; `version` is the SDK's own contract version. */
  datatype Request = Request(
    version: string,
    phase: Phase,
    backend: Backend,
    containment: Option<string>,
    sandboxId: Option<string>
  )

  /** The platform's `String.trim`, and the protocol `new URL` finds if it parses. */
  datatype Urls = Urls(trim: string -> string, protocol: string -> Option<string>)

  function PhaseText(phase: Phase): string {
    match phase
    case Provision => "provision"
    case Start => "start"
    case Exec => "exec"
    case Stop => "stop"
    case Deprovision => "deprovision"
  }

  const CROSS_CUTTING: seq<Key> := [Filesystem, Network, RuntimeConfig, Ui, Process, Telemetry]

  /** `object[key]`, for a property of one of these names. */
  function Lookup(fields: Fields, key: Key): Value {
    if key in fields then fields[key] else Undefined
  }

  /** `value?.key`. */
  function Prop(value: Value, key: Key): Value {
    if value.Obj? then Lookup(value.fields, key) else Undefined
  }

  predicate IsAllow(value: Value) {
    value == Str("allow")
  }

  // ----- What is accepted

  predicate ExecNetwork(request: Request) {
    request.phase.Exec? && request.backend.Wslc?
  }

  predicate NetworkKeys(fields: Fields, isExec: bool) {
    forall k :: k in fields ==> if isExec then k.RuntimeConfig? else k.Egress? || k.Ingress?
  }

  predicate Open(network: Value) {
    var egress, ingress := Prop(network, Egress), Prop(network, Ingress);
    && IsAllow(Prop(egress, Default)) && Prop(egress, Allow).Undefined? && Prop(egress, Deny).Undefined?
    && IsAllow(Prop(ingress, Default)) && IsAllow(Prop(ingress, HostLoopback))
  }

  predicate NetworkOk(request: Request, network: Value) {
    && (request.phase.Provision? || ExecNetwork(request))
    && network.Obj? && NetworkKeys(network.fields, ExecNetwork(request))
    && (!ExecNetwork(request) && request.backend.IsolationSession? ==> Open(network))
  }

  predicate ProxyOk(value: Value, urls: Urls) {
    value.Undefined? ||
    (value.Str? && urls.trim(value.text) == value.text && value.text != "" &&
     var protocol := urls.protocol(value.text);
     protocol == Some("http:") || protocol == Some("https:"))
  }

  predicate RuntimeOk(request: Request, runtime: Value, urls: Urls) {
    && ExecNetwork(request)
    && runtime.Obj? && forall k :: k in runtime.fields ==> k.NetworkProxy? && ProxyOk(runtime.fields[k], urls)
  }

  /** The runtime settings a call carries: on WSLC exec, those inside its network. */
  function Runtime(request: Request, config: Fields): Value {
    if ExecNetwork(request) then Prop(Lookup(config, Network), RuntimeConfig) else Undefined
  }

  predicate Acceptable(request: Request, config: Fields, urls: Urls) {
    && Version !in config && RuntimeConfig !in config
    && (!Lookup(config, Network).Undefined? ==> NetworkOk(request, Lookup(config, Network)))
    && (!Runtime(request, config).Undefined? ==> RuntimeOk(request, Runtime(request, config), urls))
  }

  // ----- What is built

  function Cross(): set<Key> {
    {Filesystem, Network, RuntimeConfig, Ui, Process, Telemetry}
  }

  /** The config with a WSLC exec network replaced by its runtime settings. */
  function Authored(request: Request, config: Fields): Fields {
    if ExecNetwork(request) && !Lookup(config, Network).Undefined?
    then config[RuntimeConfig := Runtime(request, config)] - {Network}
    else config
  }

  function Header(request: Request): Fields {
    map[Version := Str(request.version), PhaseField := Str(PhaseText(request.phase))]
    + (if request.containment.Some? && request.containment.value != ""
       then map[Containment := Str(request.containment.value)] else map[])
    + (if request.sandboxId.Some? && request.sandboxId.value != ""
       then map[SandboxId := Str(request.sandboxId.value)] else map[])
  }

  /** The defined fields among `keys`. */
  function Pick(fields: Fields, keys: set<Key>): Fields {
    map k | k in fields && k in keys && !fields[k].Undefined? :: fields[k]
  }

  function Drop(fields: Fields, keys: set<Key>): Fields {
    fields - keys
  }

  function Lifted(fields: Fields): Fields {
    Pick(fields, Cross())
  }

  function Rest(fields: Fields): Fields {
    Drop(fields, Cross())
  }

  function Nested(request: Request, rest: Fields): Fields {
    if rest == map[] then map[]
    else map[Section(request.backend) := Obj(map[PhaseName(request.phase) := Obj(rest)])]
  }

  // ----- Validation, as loops over the property names

  method CheckNetworkKeys(fields: Fields, isExec: bool) returns (ok: bool)
    ensures ok <==> NetworkKeys(fields, isExec)
  {
    var keys := fields.Keys;
    while keys != {}
      invariant keys <= fields.Keys
      invariant forall k :: k in fields && k !in keys ==>
                  if isExec then k.RuntimeConfig? else k.Egress? || k.Ingress?
      decreases |keys|
    {
      var key :| key in keys;
      var valid := if isExec then key.RuntimeConfig? else key.Egress? || key.Ingress?;
      if !valid { return false; }
      keys := keys - {key};
    }
    ok := true;
  }

  method CheckNetwork(request: Request, network: Value) returns (ok: bool)
    ensures ok <==> NetworkOk(request, network)
  {
    var isProvision := request.phase.Provision?;
    var isExec := request.phase.Exec? && request.backend.Wslc?;
    if !isProvision && !isExec { return false; }
    if !network.Obj? { return false; }
    ok := CheckNetworkKeys(network.fields, isExec);
    if ok && !isExec && request.backend.IsolationSession? { ok := Open(network); }
  }

  method CheckRuntime(request: Request, runtime: Value, urls: Urls) returns (ok: bool)
    ensures ok <==> RuntimeOk(request, runtime, urls)
  {
    if !request.backend.Wslc? || !request.phase.Exec? { return false; }
    if !runtime.Obj? { return false; }
    var keys := runtime.fields.Keys;
    while keys != {}
      invariant keys <= runtime.fields.Keys
      invariant forall k :: k in runtime.fields && k !in keys ==> k.NetworkProxy? && ProxyOk(runtime.fields[k], urls)
      decreases |keys|
    {
      var key :| key in keys;
      if !key.NetworkProxy? || !ProxyOk(runtime.fields[key], urls) { return false; }
      keys := keys - {key};
    }
    ok := true;
  }

  // ----- Building

  lemma LiftStep(before: Fields, done: set<Key>, field: Key, base: Fields)
    ensures Drop(before, done) - {field} == Drop(before, done + {field})
    ensures base + Pick(before, done + {field}) ==
              var v := Lookup(Drop(before, done), field);
              if v.Undefined? then base + Pick(before, done) else (base + Pick(before, done))[field := v]
  {
  }

  function Elements(keys: seq<Key>): set<Key> {
    set k | k in keys
  }

  /** Lift the named fields out of `specific` into `envelope`. */
  method Lift(specific: Record, envelope: Record, names: seq<Key>)
    requires specific != envelope
    modifies specific, envelope
    ensures envelope.fields == old(envelope.fields) + Pick(old(specific.fields), Elements(names))
    ensures specific.fields == Drop(old(specific.fields), Elements(names))
  {
    ghost var before, base := specific.fields, envelope.fields;
    for i := 0 to |names|
      invariant specific.fields == Drop(before, Elements(names[..i]))
      invariant envelope.fields == base + Pick(before, Elements(names[..i]))
    {
      var field := names[i];
      assert Elements(names[..i + 1]) == Elements(names[..i]) + {field};
      LiftStep(before, Elements(names[..i]), field, base);
      var value := Lookup(specific.fields, field);
      if !value.Undefined? { envelope.Put(field, value); }
      specific.Delete(field);
    }
    assert names[..|names|] == names;
  }

  method StartEnvelope(request: Request) returns (envelope: Record)
    ensures fresh(envelope) && envelope.fields == Header(request)
  {
    envelope := new Record(map[Version := Str(request.version), PhaseField := Str(PhaseText(request.phase))]);
    if request.containment.Some? && request.containment.value != "" {
      envelope.Put(Containment, Str(request.containment.value));
    }
    if request.sandboxId.Some? && request.sandboxId.value != "" {
      envelope.Put(SandboxId, Str(request.sandboxId.value));
    }
  }

  function ConfigOf(config: Record?): Fields
    reads config
  {
    if config == null then map[] else config.fields
  }

  function Built(request: Request, config: Fields): Fields {
    var authored := Authored(request, config);
    Header(request) + Lifted(authored) + Nested(request, Rest(authored))
  }

  /** Check the call and move a WSLC exec network's runtime settings up. */
  method Author(request: Request, config: Fields, specific: Record, urls: Urls) returns (ok: bool)
    requires specific.fields == config
    modifies specific
    ensures ok <==> Acceptable(request, config, urls)
    ensures ok ==> specific.fields == Authored(request, config)
  {
    if Version in specific.fields { return false; }
    if RuntimeConfig in specific.fields { return false; }
    var network := Lookup(specific.fields, Network);
    if !network.Undefined? {
      ok := CheckNetwork(request, network);
      if !ok { return; }
      if request.phase.Exec? && request.backend.Wslc? {
        specific.Put(RuntimeConfig, Prop(network, RuntimeConfig));
        specific.Delete(Network);
      }
    }
    var runtime := Lookup(specific.fields, RuntimeConfig);
    if runtime.Undefined? { return true; }
    ok := CheckRuntime(request, runtime, urls);
  }

  /** Telemetry goes up before the other fields, with the same outcome. */
  lemma TelemetryFirst(base: Fields, fields: Fields)
    requires Telemetry !in base
    ensures var t := Lookup(fields, Telemetry);
            !t.Undefined? ==>
              && base[Telemetry := t] + Lifted(fields - {Telemetry}) == base + Lifted(fields)
              && Rest(fields - {Telemetry}) == Rest(fields)
  {
  }

  method LiftAll(specific: Record, envelope: Record)
    requires specific != envelope && Telemetry !in envelope.fields
    modifies specific, envelope
    ensures envelope.fields == old(envelope.fields) + Lifted(old(specific.fields))
    ensures specific.fields == Rest(old(specific.fields))
  {
    TelemetryFirst(envelope.fields, specific.fields);
    var telemetry := Lookup(specific.fields, Telemetry);
    if !telemetry.Undefined? {
      envelope.Put(Telemetry, telemetry);
      specific.Delete(Telemetry);
    }
    assert Elements(CROSS_CUTTING) == Cross();
    Lift(specific, envelope, CROSS_CUTTING);
  }

  method Assemble(request: Request, specific: Record) returns (envelope: Fields)
    modifies specific
    ensures envelope == Header(request) + Lifted(old(specific.fields)) + Nested(request, Rest(old(specific.fields)))
  {
    var built := StartEnvelope(request);
    HeaderAvoids(request, Telemetry);
    LiftAll(specific, built);
    if specific.fields.Keys != {} {
      built.Put(Section(request.backend), Obj(map[PhaseName(request.phase) := Obj(specific.fields)]));
    }
    envelope := built.fields;
  }

  /** Refused exactly when the call is not acceptable. Otherwise the envelope is the
      header, the defined cross-cutting fields, and the rest under section and phase.
      The caller's record is not in the frame. */
  method BuildEnvelope(request: Request, config: Record?, urls: Urls) returns (envelope: Option<Fields>)
    ensures envelope.Some? <==> Acceptable(request, ConfigOf(config), urls)
    ensures envelope.Some? ==> envelope.value == Built(request, ConfigOf(config))
  {
    var specific := new Record(ConfigOf(config));
    var ok := Author(request, ConfigOf(config), specific, urls);
    if !ok { return None; }
    var fields := Assemble(request, specific);
    envelope := Some(fields);
  }

  // ----- Nothing is lost

  /** The fields under section and phase, as a receiver reads them. */
  function SectionFields(request: Request, envelope: Fields): Fields {
    var section := Prop(Lookup(envelope, Section(request.backend)), PhaseName(request.phase));
    if section.Obj? then section.fields else map[]
  }

  function Defined(fields: Fields): Fields {
    map k | k in fields && !fields[k].Undefined? :: fields[k]
  }

  /** A config rebuilt from an envelope: top-level fields, then section fields, with
      runtime settings put back inside a network. */
  function Recover(request: Request, envelope: Fields): Fields {
    Rebuilt(envelope, SectionFields(request, envelope))
  }

  function Rebuilt(top: Fields, section: Fields): Fields {
    Pick(top, Cross() - {RuntimeConfig})
    + (if RuntimeConfig in top then map[Network := Obj(map[RuntimeConfig := top[RuntimeConfig]])] else map[])
    + Defined(section)
  }

  lemma HeaderAvoids(request: Request, k: Key)
    requires k in Cross() || k.Section?
    ensures k !in Header(request)
  {
  }

  /** `top` and `section` hold exactly what `fields` has to give them. */
  predicate Divides(top: Fields, section: Fields, fields: Fields) {
    && section == Rest(fields)
    && forall k | k in Cross() :: Lookup(top, k) == Lookup(fields, k) && (k in top <==> !Lookup(fields, k).Undefined?)
  }

  lemma BuiltSection(request: Request, fields: Fields)
    ensures SectionFields(request, Header(request) + Lifted(fields) + Nested(request, Rest(fields))) == Rest(fields)
  {
    HeaderAvoids(request, Section(request.backend));
  }

  lemma BuiltTop(request: Request, fields: Fields, k: Key)
    requires k in Cross()
    ensures var e := Header(request) + Lifted(fields) + Nested(request, Rest(fields));
            Lookup(e, k) == Lookup(fields, k) && (k in e <==> !Lookup(fields, k).Undefined?)
  {
    HeaderAvoids(request, k);
  }

  lemma BuiltDivides(request: Request, config: Fields)
    ensures var e := Built(request, config);
            Divides(e, SectionFields(request, e), Authored(request, config))
  {
    var fields := Authored(request, config);
    BuiltSection(request, fields);
    forall k | k in Cross()
      ensures Lookup(Built(request, config), k) == Lookup(fields, k)
      ensures k in Built(request, config) <==> !Lookup(fields, k).Undefined?
    {
      BuiltTop(request, fields, k);
    }
  }

  /** Every defined field of an accepted config lands in exactly one place, with its
      value: cross-cutting ones on top, the rest under section and phase, and the
      runtime settings of a WSLC exec network as the top-level runtime settings. */
  lemma FieldLandsOnce(request: Request, config: Fields, urls: Urls, k: Key)
    requires Acceptable(request, config, urls) && !Lookup(config, k).Undefined?
    ensures var e := Built(request, config); var section := SectionFields(request, e);
            if k.Network? && ExecNetwork(request)
            then Network !in e && k !in section && Lookup(e, RuntimeConfig) == Prop(config[k], RuntimeConfig)
            else if k in Cross() then Lookup(e, k) == config[k] && k !in section
            else
              && Lookup(section, k) == config[k]
              && (k in e ==> k in Header(request) || k == Section(request.backend))
  {
    BuiltDivides(request, config);
    NoOtherKeys(request, Authored(request, config), k);
  }

  /** The envelope invents nothing: each of its fields is the header's or the config's. */
  lemma NothingInvented(request: Request, config: Fields, urls: Urls, k: Key)
    requires Acceptable(request, config, urls)
    ensures var e := Built(request, config); var section := SectionFields(request, e);
            && (k in e && k !in Header(request) && k != Section(request.backend) ==>
                  k in Cross() && e[k] == if k.RuntimeConfig? then Runtime(request, config) else Lookup(config, k))
            && (k in section ==> k in config && section[k] == config[k])
  {
    BuiltDivides(request, config);
    NoOtherKeys(request, Authored(request, config), k);
    AuthoredField(request, config, k);
  }

  lemma NoOtherKeys(request: Request, fields: Fields, k: Key)
    ensures k in Header(request) + Lifted(fields) + Nested(request, Rest(fields)) ==>
              k in Header(request) || k in Cross() || k == Section(request.backend)
  {
  }

  /** The fields come back from any such division; settings kept for a network come
      back inside one. */
  lemma RebuiltField(top: Fields, section: Fields, fields: Fields, k: Key)
    requires Divides(top, section, fields)
    ensures !k.Network? && !k.RuntimeConfig? ==> Lookup(Rebuilt(top, section), k) == Lookup(fields, k)
    ensures !k.Network? && !k.RuntimeConfig? ==> (k in Rebuilt(top, section) <==> !Lookup(fields, k).Undefined?)
    ensures k.RuntimeConfig? ==> k !in Rebuilt(top, section)
  {
    if k in Cross() { assert k !in section; } else { assert Lookup(section, k) == Lookup(fields, k); }
  }

  lemma RebuiltNetwork(top: Fields, section: Fields, fields: Fields)
    requires Divides(top, section, fields)
    ensures Lookup(Rebuilt(top, section), Network) ==
              var runtime := Lookup(fields, RuntimeConfig);
              if runtime.Undefined? then Lookup(fields, Network) else Obj(map[RuntimeConfig := runtime])
    ensures Network in Rebuilt(top, section) <==>
              !Lookup(fields, RuntimeConfig).Undefined? || !Lookup(fields, Network).Undefined?
  {
    assert Network !in section && Network in Cross() && RuntimeConfig in Cross();
  }

  lemma AuthoredField(request: Request, config: Fields, k: Key)
    requires RuntimeConfig !in config
    ensures !k.Network? && !k.RuntimeConfig? ==> Lookup(Authored(request, config), k) == Lookup(config, k)
    ensures Lookup(Authored(request, config), RuntimeConfig) == Runtime(request, config)
    ensures Lookup(Authored(request, config), Network) ==
              if ExecNetwork(request) then Undefined else Lookup(config, Network)
  {
  }

  /** A network that carries only runtime settings is those settings in an object. */
  lemma NetworkIsItsRuntime(request: Request, config: Fields, urls: Urls)
    requires Acceptable(request, config, urls) && !Runtime(request, config).Undefined?
    ensures Lookup(config, Network) == Obj(map[RuntimeConfig := Runtime(request, config)])
  {
    var fields := config[Network].fields;
    assert fields == map[RuntimeConfig := fields[RuntimeConfig]];
  }

  predicate LosesNetwork(request: Request, config: Fields) {
    ExecNetwork(request) && !Lookup(config, Network).Undefined? && Runtime(request, config).Undefined?
  }

  lemma RecoveredField(request: Request, config: Fields, urls: Urls, k: Key)
    requires Acceptable(request, config, urls)
    ensures var r := Recover(request, Built(request, config));
            && Lookup(r, k) == (if k.Network? && LosesNetwork(request, config) then Undefined else Lookup(config, k))
            && (k in r <==> !Lookup(r, k).Undefined?)
  {
    var e := Built(request, config);
    var section, a := SectionFields(request, e), Authored(request, config);
    BuiltDivides(request, config);
    AuthoredField(request, config, k);
    RebuiltField(e, section, a, k);
    RebuiltNetwork(e, section, a);
    if !Runtime(request, config).Undefined? { NetworkIsItsRuntime(request, config, urls); }
  }

  lemma SameFields(a: Fields, b: Fields)
    requires forall k :: (k in a <==> !Lookup(a, k).Undefined?) && (k in b <==> !Lookup(b, k).Undefined?)
    ensures a == b <==> forall k :: Lookup(a, k) == Lookup(b, k)
  {
    if forall k :: Lookup(a, k) == Lookup(b, k) {
      forall k ensures k in a <==> k in b { assert Lookup(a, k) == Lookup(b, k); }
      forall k | k in a ensures a[k] == b[k] { assert Lookup(a, k) == Lookup(b, k); }
    }
  }

  lemma DefinedField(config: Fields, k: Key)
    ensures Lookup(Defined(config), k) == Lookup(config, k)
    ensures k in Defined(config) <==> !Lookup(config, k).Undefined?
  {
  }

  /** The config comes back from its envelope, up to undefined fields, exactly when no
      WSLC exec network without runtime settings was given. */
  lemma ConfigIsRecoverable(request: Request, config: Fields, urls: Urls)
    requires Acceptable(request, config, urls)
    ensures Recover(request, Built(request, config)) == Defined(config) <==> !LosesNetwork(request, config)
  {
    var r, d := Recover(request, Built(request, config)), Defined(config);
    forall k
      ensures Lookup(r, k) == (if k.Network? && LosesNetwork(request, config) then Undefined else Lookup(d, k))
      ensures (k in r <==> !Lookup(r, k).Undefined?) && (k in d <==> !Lookup(d, k).Undefined?)
    {
      RecoveredField(request, config, urls, k);
      DefinedField(config, k);
    }
    SameFields(r, d);
    assert Lookup(r, Network) == Lookup(d, Network) <==> !LosesNetwork(request, config) by {
      DefinedField(config, Network);
    }
  }

  lemma EmptyNetworkAuthored(request: Request)
    requires ExecNetwork(request)
    ensures var a := Authored(request, map[Network := Obj(map[])]);
            && a == map[RuntimeConfig := Undefined]
            && Lifted(a) == Lifted(Authored(request, map[])) && Rest(a) == Rest(Authored(request, map[]))
  {
    var a := Authored(request, map[Network := Obj(map[])]);
    assert a == map[RuntimeConfig := Undefined];
    assert Lifted(a) == map[] && Rest(a) == map[];
  }

  /** A WSLC exec call with an empty network is accepted, and its envelope is the one of
      a call without a network. */
  lemma EmptyNetworkIsLost(version: string, urls: Urls)
    ensures var request := Request(version, Exec, Wslc, None, None);
            var config: Fields := map[Network := Obj(map[])];
            && Acceptable(request, config, urls)
            && Built(request, config) == Built(request, map[])
            && Recover(request, Built(request, config)) != Defined(config)
  {
    var request := Request(version, Exec, Wslc, None, None);
    EmptyNetworkAuthored(request);
    ConfigIsRecoverable(request, map[Network := Obj(map[])], urls);
  }
}
