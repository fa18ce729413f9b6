/**
 * What `Lab::Vm#initialize` computes from a configuration hash: the VM's
 * fields, the driver family it selects and the extra argument that
 * family's constructor receives, or the exception that aborts construction.
 */
module VmConfig {
  import opened Wrappers
  import opened RubyValues
  import opened Sanitizer
  import opened Drivers

  /** `@vm_user`, `@vm_pass`, `@vm_keyfile`: the sanitized fields of the first credential. */
  datatype ActiveCredential = ActiveCredential(user: string, pass: string, keyfile: Option<string>)

  /** `@user`, `@host`, `@port`, `@pass`: the sanitized connection fields of a remote VM. */
  datatype Remote = Remote(user: Option<string>, host: Option<string>, port: Option<string>, pass: Option<string>)

  /**
   * The instance fields `initialize` assigns, except the driver. A sanitized
   * field is an `Option<string>` where `filter_input` may return nil.
   */
  datatype Settings = Settings(
    vmid: string,
    hostname: Value,
    driverType: string,
    location: Option<string>,
    description: Value,
    notes: Value,
    tools: Value,
    os: Value,
    arch: Value,
    vmType: string,
    credentials: seq<Value>,
    active: Option<ActiveCredential>,
    remote: Remote,
    platform: Value,
    fogConfig: Value,
    machineTags: Value,
    snapshots: Value)

  /** A successful construction: the fields, the selected family and the family's extra argument. */
  datatype Blueprint = Blueprint(settings: Settings, family: Family, extra: Option<Value>)

  /**
   * `config['credentials'] || []`, as far as `count` and `[0]` can use it: an
   * array gives its elements, an empty hash counts as no credential; any
   * other truthy value makes Ruby raise.
   */
  function CredentialList(v: Value): (r: Result<seq<Value>, Error>)
    ensures r.Ok? <==> !Truthy(v) || v.List? || v == Hash(map[])
    ensures r.Ok? && v.List? ==> r.value == v.items
    ensures r.Ok? && !v.List? ==> r.value == []
    ensures r.Err? ==> r.error == RubyError
  {
    if !Truthy(v) then Ok([])
    else match v
      case List(items) => Ok(items)
      case Hash(m) => if m == map[] then Ok([]) else Err(RubyError)
      case _ => Err(RubyError)
  }

  /**
   * Lines 69-73: `user`, `pass` and `keyfile` of the first credential are
   * looked up and sanitized in that order. A missing user or pass is
   * filtered to `""`; only a non-String one, for which the filter returns
   * nil, becomes the two-character string `''`.
   */
  function FirstCredential(cred: Value): Result<ActiveCredential, Error> {
    var user :- Index(cred, "user");
    var u :- FilterInput(user);
    var pass :- Index(cred, "pass");
    var p :- FilterInput(pass);
    var keyfile :- Index(cred, "keyfile");
    var k :- FilterInput(keyfile);
    Ok(ActiveCredential(u.GetOr("''"), p.GetOr("''"), k))
  }

  /** Lines 68-73: only the first credential is examined. */
  function ActiveCredentialOf(credentials: seq<Value>): Result<Option<ActiveCredential>, Error> {
    if credentials == [] then Ok(None)
    else
      var a :- FirstCredential(credentials[0]);
      Ok(Some(a))
  }

  /** Lines 76-79: the remote connection fields, sanitized in this order. */
  function RemoteFields(c: Config): Result<Remote, Error> {
    var user :- FilterInput(Get(c, "user"));
    var host :- FilterInput(Get(c, "host"));
    var port :- FilterInput(Get(c, "port"));
    var pass :- FilterInput(Get(c, "pass"));
    Ok(Remote(user, host, port, pass))
  }

  /** The results of the sanitizing steps of `initialize`. */
  datatype Screening = Screening(
    driverType: string,
    location: Option<string>,
    vmType: string,
    credentials: seq<Value>,
    active: Option<ActiveCredential>,
    remote: Remote)

  /** Lines 56-57: the driver is sanitized, then lower-cased in place, which raises on nil. */
  function DriverType(c: Config): Result<string, Error> {
    var driverIn :- FilterInput(Get(c, "driver"));
    if driverIn.None? then Err(RubyError) else Ok(Downcase(driverIn.value))
  }

  /**
   * Lines 59-79, after the driver: the location, the type (nil becomes
   * "unspecified"), the credentials and the remote fields.
   */
  function ScreenRest(c: Config, driverType: string): Result<Screening, Error> {
    var location :- FilterInput(Get(c, "location"));
    var typeIn :- FilterInput(Get(c, "type"));
    var credentials :- CredentialList(Get(c, "credentials"));
    var active :- ActiveCredentialOf(credentials);
    var remote :- RemoteFields(c);
    Ok(Screening(driverType, location, typeIn.GetOr("unspecified"), credentials, active, remote))
  }

  /** Lines 56-79: every sanitizing step of construction, in the source's order. */
  function Screen(c: Config): Result<Screening, Error> {
    var driverType :- DriverType(c);
    ScreenRest(c, driverType)
  }

  /** `initialize(config)`: the id check, the sanitizing steps, then the driver dispatch. */
  function Setup(c: Config, inspect: Value -> string): Result<Blueprint, Error> {
    var vmid := ToS(Get(c, "vmid"), inspect);
    if Strip(vmid) == [] then Err(InvalidVmid) else
    var f :- Screen(c);
    match FamilyOf(f.driverType)
    case None => Err(UnknownDriverType)
    case Some(family) => Ok(Blueprint(Assemble(c, vmid, f), family, ExtraConfig(family, c)))
  }

  /** The fields of the new VM: the sanitized ones from `f`, the defaults, and the stored-as-is ones. */
  function Assemble(c: Config, vmid: string, f: Screening): Settings {
    Settings(
      vmid, Or(Or(Get(c, "hostname"), Get(c, "name_label")), Str(vmid)), f.driverType, f.location,
      Or(Get(c, "description"), Get(c, "name_description")),
      Get(c, "notes"), Get(c, "tools"), Get(c, "os"), Get(c, "arch"),
      f.vmType, f.credentials, f.active, f.remote,
      Get(c, "platform"), Get(c, "fog_config"), Get(c, "machine_tags"), Get(c, "snapshots"))
  }

  /** The exception a step raises, if any. */
  function ErrorOf<T>(r: Result<T, Error>): Option<Error> {
    if r.Err? then Some(r.error) else None
  }

  /** Construction raises "Invalid VMID" exactly when `vmid.to_s` is blank after `strip`. */
  lemma SetupVmid(c: Config, inspect: Value -> string)
    ensures Setup(c, inspect) == Err(InvalidVmid) <==> Blank(ToS(Get(c, "vmid"), inspect))
    ensures Setup(c, inspect).Ok? ==> Setup(c, inspect).value.settings.vmid == ToS(Get(c, "vmid"), inspect)
  {
    StripEmptyIffBlank(ToS(Get(c, "vmid"), inspect));
    ScreenErrorKind(c);
  }

  /** The sanitizing stage raises only the sanitizer's error or a core-library one. */
  lemma ScreenErrorKind(c: Config)
    ensures Screen(c).Err? ==> Screen(c).error.InvalidCharacter? || Screen(c).error == RubyError
  {
    var cr := CredentialList(Get(c, "credentials"));
    if cr.Ok? && cr.value != [] {
      FirstCredentialErrorKind(cr.value[0]);
    }
    RemoteFieldsErrorKind(c);
  }

  lemma FirstCredentialErrorKind(cred: Value)
    ensures FirstCredential(cred).Err? ==> FirstCredential(cred).error.InvalidCharacter? || FirstCredential(cred).error == RubyError
  {
    if Index(cred, "user").Ok? {
      FilterErrorKind(Index(cred, "user").value);
      FilterErrorKind(Index(cred, "pass").value);
      FilterErrorKind(Index(cred, "keyfile").value);
    }
  }

  lemma FilterErrorKind(v: Value)
    ensures FilterInput(v).Err? ==> FilterInput(v).error.InvalidCharacter?
  {
  }

  lemma RemoteFieldsErrorKind(c: Config)
    ensures RemoteFields(c).Err? ==> RemoteFields(c).error.InvalidCharacter?
  {
  }

  /** The defaults `initialize` derives, and the fields it stores unexamined. */
  lemma SetupDefaults(c: Config, inspect: Value -> string)
    requires Setup(c, inspect).Ok?
    ensures var st := Setup(c, inspect).value.settings;
      && (Truthy(Get(c, "hostname")) ==> st.hostname == Get(c, "hostname"))
      && (!Truthy(Get(c, "hostname")) && Truthy(Get(c, "name_label")) ==> st.hostname == Get(c, "name_label"))
      && (!Truthy(Get(c, "hostname")) && !Truthy(Get(c, "name_label")) ==> st.hostname == Str(st.vmid))
      && st.description == Or(Get(c, "description"), Get(c, "name_description"))
      && (!Truthy(Get(c, "type")) ==> st.vmType == "")
      && (Get(c, "type").Str? ==> st.vmType == Get(c, "type").s)
      && (Truthy(Get(c, "type")) && !Get(c, "type").Str? ==> st.vmType == "unspecified")
      && st.notes == Get(c, "notes") && st.tools == Get(c, "tools")
      && st.os == Get(c, "os") && st.arch == Get(c, "arch")
      && st.platform == Get(c, "platform") && st.fogConfig == Get(c, "fog_config")
      && st.machineTags == Get(c, "machine_tags") && st.snapshots == Get(c, "snapshots")
  {
  }

  /**
   * The invariant of a constructed VM: a non-blank id, a driver type that
   * names the selected family, and every sanitized field that is a string
   * satisfying the pattern (user and pass of the first credential may also
   * be the `''` placeholder).
   */
  ghost predicate Sanitary(st: Settings) {
    && (st.location.Some? ==> PatternMatches(st.location.value))
    && (PatternMatches(st.vmType) || st.vmType == "unspecified")
    && RemoteSanitary(st.remote)
    && (st.active.Some? ==> CredentialSanitary(st.active.value))
  }

  ghost predicate WellFormed(b: Blueprint, c: Config) {
    && !Blank(b.settings.vmid)
    && FamilyOf(b.settings.driverType) == Some(b.family)
    && b.extra == ExtraConfig(b.family, c)
    && Sanitary(b.settings)
  }

  ghost predicate RemoteSanitary(r: Remote) {
    && (r.user.Some? ==> PatternMatches(r.user.value))
    && (r.host.Some? ==> PatternMatches(r.host.value))
    && (r.port.Some? ==> PatternMatches(r.port.value))
    && (r.pass.Some? ==> PatternMatches(r.pass.value))
  }

  ghost predicate CredentialSanitary(a: ActiveCredential) {
    && (PatternMatches(a.user) || a.user == "''")
    && (PatternMatches(a.pass) || a.pass == "''")
    && (a.keyfile.Some? ==> PatternMatches(a.keyfile.value))
  }

  lemma RemoteFieldsSanitary(c: Config)
    requires RemoteFields(c).Ok?
    ensures RemoteSanitary(RemoteFields(c).value)
  {
  }

  lemma ActiveCredentialSanitary(credentials: seq<Value>)
    requires ActiveCredentialOf(credentials).Ok?
    ensures var a := ActiveCredentialOf(credentials).value;
      && (a.Some? <==> credentials != [])
      && (a.Some? ==> FirstCredential(credentials[0]) == Ok(a.value) && CredentialSanitary(a.value))
  {
  }

  lemma ScreenSanitary(c: Config)
    requires Screen(c).Ok?
    ensures var f := Screen(c).value;
      && (f.location.Some? ==> PatternMatches(f.location.value))
      && (PatternMatches(f.vmType) || f.vmType == "unspecified")
      && RemoteSanitary(f.remote)
      && (f.active.Some? <==> f.credentials != [])
      && (f.active.Some? ==> FirstCredential(f.credentials[0]) == Ok(f.active.value) && CredentialSanitary(f.active.value))
  {
    var credentials := CredentialList(Get(c, "credentials")).value;
    ActiveCredentialSanitary(credentials);
    RemoteFieldsSanitary(c);
  }

  /** Every successful construction satisfies the invariant; the active credential comes from the first entry. */
  lemma SetupWellFormed(c: Config, inspect: Value -> string)
    requires Setup(c, inspect).Ok?
    ensures WellFormed(Setup(c, inspect).value, c)
    ensures var st := Setup(c, inspect).value.settings;
      && (st.active.Some? <==> st.credentials != [])
      && (st.credentials != [] ==> FirstCredential(st.credentials[0]) == Ok(st.active.value))
  {
    SetupVmid(c, inspect);
    ScreenSanitary(c);
  }

  /** The connection fields and the credential list of a constructed VM are those the sanitizing steps computed. */
  lemma SetupScreening(c: Config, inspect: Value -> string)
    requires Setup(c, inspect).Ok?
    ensures Screen(c).Ok? && RemoteFields(c).Ok? && CredentialList(Get(c, "credentials")).Ok?
    ensures Setup(c, inspect).value.settings.remote == RemoteFields(c).value
    ensures Setup(c, inspect).value.settings.credentials == CredentialList(Get(c, "credentials")).value
  {
    var f := Screen(c).value;
    assert Setup(c, inspect).value.settings == Assemble(c, ToS(Get(c, "vmid"), inspect), f);
  }

  // The order of the sanitizer calls.

  /** The driver string when the driver value is a String, "" otherwise. */
  function DriverText(c: Config): string {
    if Get(c, "driver").Str? then Get(c, "driver").s else ""
  }

  /**
   * The configurations on which construction meets no exception of Ruby's
   * own: the driver is absent or a String, and the credentials are absent,
   * an empty hash, or an array whose first entry (if any) is a hash, a
   * String or a Symbol.
   */
  predicate WellShaped(c: Config) {
    var d := Get(c, "driver");
    var cr := Get(c, "credentials");
    && (!Truthy(d) || d.Str?)
    && (!Truthy(cr) || cr == Hash(map[]) || (cr.List? && (cr.items == [] || cr.items[0].Hash? || cr.items[0].Str? || cr.items[0].Sym?)))
  }

  /**
   * The values `initialize` sanitizes for the first credential: what
   * `['user']`, `['pass']` and `['keyfile']` give on it, when it is a hash,
   * a String or a Symbol.
   */
  function CredentialScreened(cr: Value): seq<Value> {
    if Truthy(cr) && cr.List? && cr.items != [] && (cr.items[0].Hash? || cr.items[0].Str? || cr.items[0].Sym?) then
      var first := cr.items[0];
      [Index(first, "user").value, Index(first, "pass").value, Index(first, "keyfile").value]
    else []
  }

  function RemoteScreened(c: Config): seq<Value> {
    [Get(c, "user"), Get(c, "host"), Get(c, "port"), Get(c, "pass")]
  }

  /** The values `initialize` hands to `filter_input`, in order. */
  function Screened(c: Config): seq<Value> {
    [Get(c, "driver"), Get(c, "location"), Get(c, "type")]
      + CredentialScreened(Get(c, "credentials")) + RemoteScreened(c)
  }

  /** The first value of `vs` the sanitizer rejects. */
  function FirstRejected(vs: seq<Value>): (r: Option<string>)
    ensures r.Some? ==> exists i :: 0 <= i < |vs| && vs[i] == Str(r.value) && FilterInput(vs[i]).Err?
                          && forall j :: 0 <= j < i ==> FilterInput(vs[j]).Ok?
    ensures r.None? <==> forall i :: 0 <= i < |vs| ==> FilterInput(vs[i]).Ok?
  {
    if vs == [] then None
    else if FilterInput(vs[0]).Err? then Some(vs[0].s)
    else
      var r := FirstRejected(vs[1..]);
      assert forall i :: 1 <= i < |vs| ==> vs[i] == vs[1..][i - 1];
      r
  }

  lemma FirstRejectedCons(x: Value, rest: seq<Value>)
    ensures FirstRejected([x] + rest) == if FilterInput(x).Err? then Some(x.s) else FirstRejected(rest)
  {
    assert ([x] + rest)[1..] == rest;
  }

  lemma {:induction false} FirstRejectedAppend(a: seq<Value>, b: seq<Value>)
    ensures FirstRejected(a + b) == if FirstRejected(a).Some? then FirstRejected(a) else FirstRejected(b)
  {
    if a != [] {
      assert a + b == [a[0]] + (a[1..] + b);
      assert a == [a[0]] + a[1..];
      FirstRejectedCons(a[0], a[1..] + b);
      FirstRejectedCons(a[0], a[1..]);
      FirstRejectedAppend(a[1..], b);
    } else {
      assert a + b == b;
    }
  }

  /** A sanitizing step raises the sanitizer's error for the first rejected of its values. */
  ghost predicate RaisesFirstRejected<T>(r: Result<T, Error>, vs: seq<Value>) {
    && (r.Err? <==> FirstRejected(vs).Some?)
    && (r.Err? ==> r.error == InvalidCharacter(FirstRejected(vs).value))
  }

  lemma RemoteFieldsInOrder(c: Config)
    ensures RaisesFirstRejected(RemoteFields(c), RemoteScreened(c))
  {
    var vs := RemoteScreened(c);
    assert vs == [vs[0]] + ([vs[1]] + ([vs[2]] + [vs[3]]));
    FirstRejectedCons(vs[0], [vs[1]] + ([vs[2]] + [vs[3]]));
    FirstRejectedCons(vs[1], [vs[2]] + [vs[3]]);
    FirstRejectedCons(vs[2], [vs[3]]);
    FirstRejectedCons(vs[3], []);
  }

  lemma ActiveCredentialInOrder(cr: Value)
    requires !Truthy(cr) || cr == Hash(map[]) || (cr.List? && (cr.items == [] || cr.items[0].Hash? || cr.items[0].Str? || cr.items[0].Sym?))
    ensures RaisesFirstRejected(ActiveCredentialOf(CredentialList(cr).value), CredentialScreened(cr))
  {
    var vs := CredentialScreened(cr);
    if vs != [] {
      assert vs == [vs[0]] + ([vs[1]] + [vs[2]]);
      FirstRejectedCons(vs[0], [vs[1]] + [vs[2]]);
      FirstRejectedCons(vs[1], [vs[2]]);
      FirstRejectedCons(vs[2], []);
    }
  }

  /** The sanitizing steps raise for exactly the first rejected screened value. */
  lemma ScreenInOrder(c: Config)
    requires WellShaped(c)
    ensures RaisesFirstRejected(Screen(c), Screened(c))
    ensures Screen(c).Ok? ==> Screen(c).value.driverType == Downcase(DriverText(c))
  {
    ScreenedFirstRejected(c);
    var d, l, t := Get(c, "driver"), Get(c, "location"), Get(c, "type");
    if FilterInput(d).Err? || FilterInput(l).Err? || FilterInput(t).Err? {
    } else {
      var cr := Get(c, "credentials");
      ActiveCredentialInOrder(cr);
      if ActiveCredentialOf(CredentialList(cr).value).Ok? {
        RemoteFieldsInOrder(c);
      }
    }
  }

  /** The first rejected screened value, stage by stage. */
  lemma ScreenedFirstRejected(c: Config)
    ensures var d, l, t := Get(c, "driver"), Get(c, "location"), Get(c, "type");
      var first := FirstRejected(CredentialScreened(Get(c, "credentials")));
      FirstRejected(Screened(c))
      == if FilterInput(d).Err? then Some(d.s)
         else if FilterInput(l).Err? then Some(l.s)
         else if FilterInput(t).Err? then Some(t.s)
         else if first.Some? then first
         else FirstRejected(RemoteScreened(c))
  {
    var head := [Get(c, "driver"), Get(c, "location"), Get(c, "type")];
    var first := CredentialScreened(Get(c, "credentials"));
    var tail := RemoteScreened(c);
    assert Screened(c) == head + (first + tail);
    FirstRejectedAppend(head, first + tail);
    FirstRejectedAppend(first, tail);
    assert head == [head[0]] + ([head[1]] + [head[2]]);
    FirstRejectedCons(head[0], [head[1]] + [head[2]]);
    FirstRejectedCons(head[1], [head[2]]);
    FirstRejectedCons(head[2], []);
  }

  /**
   * On a well-shaped configuration with a valid id, construction raises the
   * sanitizer's error for the first rejected value of `Screened`; when none
   * is rejected, it succeeds exactly when the lower-cased driver names a
   * family, and raises "Unknown Driver Type" otherwise.
   */
  lemma SetupScreensInOrder(c: Config, inspect: Value -> string)
    requires WellShaped(c)
    requires !Blank(ToS(Get(c, "vmid"), inspect))
    ensures FirstRejected(Screened(c)).Some? ==>
              Setup(c, inspect) == Err(InvalidCharacter(FirstRejected(Screened(c)).value))
    ensures FirstRejected(Screened(c)).None? ==>
              (Setup(c, inspect).Ok? <==> FamilyOf(Downcase(DriverText(c))).Some?)
    ensures FirstRejected(Screened(c)).None? && Setup(c, inspect).Err? ==>
              Setup(c, inspect).error == UnknownDriverType
  {
    SetupVmid(c, inspect);
    ScreenInOrder(c);
  }

  // What the driver dispatch depends on.

  /** A truthy driver value that is not a String reaches `nil.downcase!`, which raises. */
  lemma NonStringDriverRaises(c: Config, inspect: Value -> string)
    requires !Blank(ToS(Get(c, "vmid"), inspect))
    requires Truthy(Get(c, "driver")) && !Get(c, "driver").Str?
    ensures Setup(c, inspect) == Err(RubyError)
  {
    SetupVmid(c, inspect);
  }

  /** An absent driver becomes "", which names no family. */
  lemma AbsentDriverUnknown(c: Config, inspect: Value -> string)
    requires WellShaped(c) && !Blank(ToS(Get(c, "vmid"), inspect))
    requires !Truthy(Get(c, "driver"))
    requires FirstRejected(Screened(c)).None?
    ensures Setup(c, inspect) == Err(UnknownDriverType)
  {
    SetupScreensInOrder(c, inspect);
    assert Downcase(DriverText(c)) == "";
  }

  /**
   * Two configurations whose driver strings agree after lower-casing, and
   * that agree on every other key, construct the same VM, or both fail.
   */
  lemma DriverCaseInsensitive(c1: Config, c2: Config, s: string, t: string, inspect: Value -> string)
    requires Get(c1, "driver") == Str(s) && Get(c2, "driver") == Str(t) && Downcase(s) == Downcase(t)
    requires forall k :: k != "driver" ==> Get(c1, k) == Get(c2, k)
    ensures Setup(c1, inspect).Ok? == Setup(c2, inspect).Ok?
    ensures Setup(c1, inspect).Ok? ==> Setup(c1, inspect) == Setup(c2, inspect)
  {
    DriverCaseScreen(c1, c2, s, t);
    assert Get(c1, "vmid") == Get(c2, "vmid");
    if Screen(c1).Ok? {
      SameAssembly(c1, c2, ToS(Get(c1, "vmid"), inspect), Screen(c1).value);
    }
  }

  lemma DriverCaseScreen(c1: Config, c2: Config, s: string, t: string)
    requires Get(c1, "driver") == Str(s) && Get(c2, "driver") == Str(t) && Downcase(s) == Downcase(t)
    requires forall k :: k != "driver" ==> Get(c1, k) == Get(c2, k)
    ensures Screen(c1).Ok? == Screen(c2).Ok?
    ensures Screen(c1).Ok? ==> Screen(c1) == Screen(c2)
  {
    DriverTypeCaseInsensitive(c1, c2, s, t);
    if DriverType(c1).Ok? {
      assert Get(c1, "location") == Get(c2, "location") && Get(c1, "type") == Get(c2, "type");
      assert Get(c1, "credentials") == Get(c2, "credentials");
      assert Get(c1, "user") == Get(c2, "user") && Get(c1, "host") == Get(c2, "host");
      assert Get(c1, "port") == Get(c2, "port") && Get(c1, "pass") == Get(c2, "pass");
      SameRemoteFields(c1, c2);
      SameScreen(c1, c2);
    }
  }

  lemma DriverTypeCaseInsensitive(c1: Config, c2: Config, s: string, t: string)
    requires Get(c1, "driver") == Str(s) && Get(c2, "driver") == Str(t) && Downcase(s) == Downcase(t)
    ensures DriverType(c1).Ok? == DriverType(c2).Ok?
    ensures DriverType(c1).Ok? ==> DriverType(c1) == DriverType(c2)
  {
    DowncaseKeepsVerdict(s);
    DowncaseKeepsVerdict(t);
  }

  lemma SameAssembly(c1: Config, c2: Config, vmid: string, f: Screening)
    requires forall k :: k != "driver" ==> Get(c1, k) == Get(c2, k)
    ensures Assemble(c1, vmid, f) == Assemble(c2, vmid, f)
    ensures forall family :: ExtraConfig(family, c1) == ExtraConfig(family, c2)
  {
    assert AssembledAgree(c1, c2);
    assert Get(c1, "dynagen_config") == Get(c2, "dynagen_config");
    AssembleCongruent(c1, c2, vmid, f);
  }

  /** The two configurations agree on every key `Assemble` reads. */
  predicate AssembledAgree(c1: Config, c2: Config) {
    && Get(c1, "hostname") == Get(c2, "hostname") && Get(c1, "name_label") == Get(c2, "name_label")
    && Get(c1, "description") == Get(c2, "description") && Get(c1, "name_description") == Get(c2, "name_description")
    && Get(c1, "notes") == Get(c2, "notes") && Get(c1, "tools") == Get(c2, "tools")
    && Get(c1, "os") == Get(c2, "os") && Get(c1, "arch") == Get(c2, "arch")
    && Get(c1, "platform") == Get(c2, "platform") && Get(c1, "fog_config") == Get(c2, "fog_config")
    && Get(c1, "machine_tags") == Get(c2, "machine_tags") && Get(c1, "snapshots") == Get(c2, "snapshots")
  }

  /** `Assemble` reads no key beyond those `AssembledAgree` compares. */
  lemma AssembleCongruent(c1: Config, c2: Config, vmid: string, f: Screening)
    requires AssembledAgree(c1, c2)
    ensures Assemble(c1, vmid, f) == Assemble(c2, vmid, f)
  {
  }

  /**
   * `dynagen_config` reaches only the dynagen driver's constructor: it
   * changes neither whether construction succeeds nor any field of the VM.
   */
  lemma SettingsIgnoreDynagenConfig(c1: Config, c2: Config, inspect: Value -> string)
    requires forall k :: k != "dynagen_config" ==> Get(c1, k) == Get(c2, k)
    ensures Setup(c1, inspect).Ok? <==> Setup(c2, inspect).Ok?
    ensures Setup(c1, inspect).Ok? ==>
      && Setup(c1, inspect).value.settings == Setup(c2, inspect).value.settings
      && Setup(c1, inspect).value.family == Setup(c2, inspect).value.family
  {
    assert Get(c1, "driver") == Get(c2, "driver") && Get(c1, "vmid") == Get(c2, "vmid");
    assert Get(c1, "location") == Get(c2, "location") && Get(c1, "type") == Get(c2, "type");
    assert Get(c1, "credentials") == Get(c2, "credentials");
    assert Get(c1, "user") == Get(c2, "user") && Get(c1, "host") == Get(c2, "host");
    assert Get(c1, "port") == Get(c2, "port") && Get(c1, "pass") == Get(c2, "pass");
    SameRemoteFields(c1, c2);
    SameScreen(c1, c2);
    if Screen(c1).Ok? {
      AssembleIgnoresDynagenConfig(c1, c2, ToS(Get(c1, "vmid"), inspect), Screen(c1).value);
    }
  }

  lemma AssembleIgnoresDynagenConfig(c1: Config, c2: Config, vmid: string, f: Screening)
    requires forall k :: k != "dynagen_config" ==> Get(c1, k) == Get(c2, k)
    ensures Assemble(c1, vmid, f) == Assemble(c2, vmid, f)
  {
    assert AssembledAgree(c1, c2);
    AssembleCongruent(c1, c2, vmid, f);
  }

  lemma SameScreen(c1: Config, c2: Config)
    requires DriverType(c1) == DriverType(c2)
    requires Get(c1, "location") == Get(c2, "location") && Get(c1, "type") == Get(c2, "type")
    requires Get(c1, "credentials") == Get(c2, "credentials")
    requires RemoteFields(c1) == RemoteFields(c2)
    ensures Screen(c1) == Screen(c2)
  {
    if DriverType(c1).Ok? {
      SameScreenRest(c1, c2, DriverType(c1).value);
    }
  }

  lemma SameScreenRest(c1: Config, c2: Config, driverType: string)
    requires Get(c1, "location") == Get(c2, "location") && Get(c1, "type") == Get(c2, "type")
    requires Get(c1, "credentials") == Get(c2, "credentials")
    requires RemoteFields(c1) == RemoteFields(c2)
    ensures ScreenRest(c1, driverType) == ScreenRest(c2, driverType)
  {
  }

  lemma SameRemoteFields(c1: Config, c2: Config)
    requires Get(c1, "user") == Get(c2, "user") && Get(c1, "host") == Get(c2, "host")
    requires Get(c1, "port") == Get(c2, "port") && Get(c1, "pass") == Get(c2, "pass")
    ensures RemoteFields(c1) == RemoteFields(c2)
  {
  }

  // What construction leaves in the caller's hash.

  /**
   * Line 57 lower-cases in place the String that line 56 got back from
   * `filter_input`, and for a String argument that is the object stored
   * under `config['driver']`: the caller's hash holds the lower-cased driver
   * from then on.
   */
  function LowerDriver(c: Config): (r: Config)
    ensures Get(c, "driver").Str? ==> Get(r, "driver") == Str(Downcase(Get(c, "driver").s))
    ensures !Get(c, "driver").Str? ==> r == c
    ensures forall k :: k != "driver" ==> Get(r, k) == Get(c, k)
  {
    if Get(c, "driver").Str? then c["driver" := Str(Downcase(Get(c, "driver").s))] else c
  }

  /**
   * The caller's hash once `initialize` has returned or raised: the driver
   * is lower-cased when the id check passed and the driver passed the
   * filter, whatever the later steps do.
   */
  function ConfigAfter(c: Config, inspect: Value -> string): Config {
    if Strip(ToS(Get(c, "vmid"), inspect)) != [] && FilterInput(Get(c, "driver")).Ok? then LowerDriver(c) else c
  }

  /** The family's extra argument is the same in the changed hash. */
  lemma LowerDriverKeepsExtra(f: Family, c: Config)
    ensures ExtraConfig(f, LowerDriver(c)) == ExtraConfig(f, c)
  {
    assert Get(LowerDriver(c), "fog_config") == Get(c, "fog_config");
    assert Get(LowerDriver(c), "dynagen_config") == Get(c, "dynagen_config");
  }

  /**
   * Construction changes at most the driver entry of the caller's hash; an
   * invalid id leaves the hash as it was, and after a successful
   * construction the entry holds the driver type the VM records.
   */
  lemma ConfigAfterSetup(c: Config, inspect: Value -> string)
    ensures forall k :: k != "driver" ==> Get(ConfigAfter(c, inspect), k) == Get(c, k)
    ensures !Get(c, "driver").Str? || Setup(c, inspect) == Err(InvalidVmid) ==> ConfigAfter(c, inspect) == c
    ensures Setup(c, inspect).Ok? && Get(c, "driver").Str? ==>
              Get(ConfigAfter(c, inspect), "driver") == Str(Setup(c, inspect).value.settings.driverType)
  {
    SetupVmid(c, inspect);
    StripEmptyIffBlank(ToS(Get(c, "vmid"), inspect));
    if Setup(c, inspect).Ok? {
      SetupDriverType(c, inspect);
    }
  }

  lemma SetupDriverType(c: Config, inspect: Value -> string)
    requires Setup(c, inspect).Ok?
    ensures DriverType(c) == Ok(Setup(c, inspect).value.settings.driverType)
  {
    var f := Screen(c).value;
    assert Setup(c, inspect).value.settings == Assemble(c, ToS(Get(c, "vmid"), inspect), f);
  }

  /** Constructing a VM again from the changed hash gives the same outcome as the first construction. */
  lemma SetupAgain(c: Config, inspect: Value -> string)
    ensures Setup(ConfigAfter(c, inspect), inspect).Ok? == Setup(c, inspect).Ok?
    ensures Setup(c, inspect).Ok? ==> Setup(ConfigAfter(c, inspect), inspect) == Setup(c, inspect)
  {
    var after := ConfigAfter(c, inspect);
    if after != c {
      var s := Get(c, "driver").s;
      DowncaseIdempotent(s);
      DriverCaseInsensitive(c, after, s, Downcase(s), inspect);
    }
  }

  // Fields construction never sanitizes.

  /** The keys whose values `initialize` sanitizes or counts: the only ones besides `vmid` that can make it raise. */
  function ScreenedKeys(): set<string> {
    {"driver", "location", "type", "credentials", "user", "host", "port", "pass"}
  }

  /**
   * Whether and how construction raises depends only on the blankness of the
   * id and on the screened keys: the id's characters, description, notes,
   * os, arch, tools, platform, tags, snapshots and the driver blobs never
   * make it raise.
   */
  lemma OutcomeDependsOnScreenedKeys(c1: Config, c2: Config, inspect: Value -> string)
    requires Blank(ToS(Get(c1, "vmid"), inspect)) == Blank(ToS(Get(c2, "vmid"), inspect))
    requires forall k :: k in ScreenedKeys() ==> Get(c1, k) == Get(c2, k)
    ensures ErrorOf(Setup(c1, inspect)) == ErrorOf(Setup(c2, inspect))
  {
    SetupVmid(c1, inspect);
    SetupVmid(c2, inspect);
    assert Get(c1, "driver") == Get(c2, "driver");
    assert Get(c1, "location") == Get(c2, "location") && Get(c1, "type") == Get(c2, "type");
    assert Get(c1, "credentials") == Get(c2, "credentials");
    assert Get(c1, "user") == Get(c2, "user") && Get(c1, "host") == Get(c2, "host");
    assert Get(c1, "port") == Get(c2, "port") && Get(c1, "pass") == Get(c2, "pass");
    SameRemoteFields(c1, c2);
    SameScreen(c1, c2);
  }

  /** Only the first credential is sanitized: the entries after it never make construction raise. */
  lemma LaterCredentialsIrrelevant(c1: Config, c2: Config, first: Value, rest1: seq<Value>, rest2: seq<Value>, inspect: Value -> string)
    requires Get(c1, "credentials") == List([first] + rest1) && Get(c2, "credentials") == List([first] + rest2)
    requires forall k :: k != "credentials" ==> Get(c1, k) == Get(c2, k)
    ensures ErrorOf(Setup(c1, inspect)) == ErrorOf(Setup(c2, inspect))
  {
    assert Get(c1, "vmid") == Get(c2, "vmid");
    LaterCredentialsScreen(c1, c2, first, rest1, rest2);
    SetupError(c1, inspect);
    SetupError(c2, inspect);
  }

  /** The exception of construction, if any, stage by stage. */
  lemma SetupError(c: Config, inspect: Value -> string)
    ensures ErrorOf(Setup(c, inspect))
      == if Strip(ToS(Get(c, "vmid"), inspect)) == [] then Some(InvalidVmid)
         else if Screen(c).Err? then Some(Screen(c).error)
         else if FamilyOf(Screen(c).value.driverType).None? then Some(UnknownDriverType)
         else None
  {
  }

  lemma LaterCredentialsScreen(c1: Config, c2: Config, first: Value, rest1: seq<Value>, rest2: seq<Value>)
    requires Get(c1, "credentials") == List([first] + rest1) && Get(c2, "credentials") == List([first] + rest2)
    requires forall k :: k != "credentials" ==> Get(c1, k) == Get(c2, k)
    ensures ErrorOf(Screen(c1)) == ErrorOf(Screen(c2))
    ensures Screen(c1).Ok? ==> Screen(c1).value.driverType == Screen(c2).value.driverType
  {
    assert Get(c1, "driver") == Get(c2, "driver");
    if DriverType(c1).Ok? {
      LaterCredentialsRest(c1, c2, DriverType(c1).value, first, rest1, rest2);
    }
  }

  lemma LaterCredentialsRest(c1: Config, c2: Config, driverType: string, first: Value, rest1: seq<Value>, rest2: seq<Value>)
    requires Get(c1, "credentials") == List([first] + rest1) && Get(c2, "credentials") == List([first] + rest2)
    requires forall k :: k != "credentials" ==> Get(c1, k) == Get(c2, k)
    ensures ErrorOf(ScreenRest(c1, driverType)) == ErrorOf(ScreenRest(c2, driverType))
    ensures ScreenRest(c1, driverType).Ok? ==> ScreenRest(c1, driverType).value.driverType == driverType
    ensures ScreenRest(c2, driverType).Ok? ==> ScreenRest(c2, driverType).value.driverType == driverType
  {
    assert ActiveCredentialOf([first] + rest1) == ActiveCredentialOf([first] + rest2);
    assert Get(c1, "location") == Get(c2, "location");
    assert Get(c1, "type") == Get(c2, "type");
    assert RemoteFields(c1) == RemoteFields(c2) by {
      assert Get(c1, "user") == Get(c2, "user");
      assert Get(c1, "host") == Get(c2, "host");
      assert Get(c1, "port") == Get(c2, "port");
      assert Get(c1, "pass") == Get(c2, "pass");
    }
  }

  // Two example configurations, and the general facts behind them.

  /** `{vmid: id, driver: driver, credentials: [{user: user, pass: pass}]}` */
  function MinimalConfig(id: string, driver: string, user: string, pass: string): Config {
    map["vmid" := Str(id), "driver" := Str(driver),
        "credentials" := List([Hash(map["user" := Str(user), "pass" := Str(pass)])])]
  }

  lemma MinimalCredential(user: string, pass: string)
    requires AllowListed(user) && AllowListed(pass)
    ensures FirstCredential(Hash(map["user" := Str(user), "pass" := Str(pass)]))
            == Ok(ActiveCredential(user, pass, Some("")))
  {
    var cred := map["user" := Str(user), "pass" := Str(pass)];
    assert Get(cred, "user") == Str(user) && Get(cred, "pass") == Str(pass) && Get(cred, "keyfile") == Nil;
    AllowListedAccepted(user);
    AllowListedAccepted(pass);
  }

  /** Screen succeeds when every sanitizing step does. */
  lemma ScreenOf(c: Config, driver: string, location: Option<string>, typeIn: Option<string>,
                 credentials: seq<Value>, active: Option<ActiveCredential>, remote: Remote)
    requires FilterInput(Get(c, "driver")) == Ok(Some(driver))
    requires FilterInput(Get(c, "location")) == Ok(location) && FilterInput(Get(c, "type")) == Ok(typeIn)
    requires CredentialList(Get(c, "credentials")) == Ok(credentials) && ActiveCredentialOf(credentials) == Ok(active)
    requires RemoteFields(c) == Ok(remote)
    ensures Screen(c) == Ok(Screening(Downcase(driver), location, typeIn.GetOr("unspecified"), credentials, active, remote))
  {
  }

  /** Setup succeeds when the id is not blank, the sanitizing steps succeed and the driver names a family. */
  lemma SetupOf(c: Config, inspect: Value -> string, f: Screening, family: Family)
    requires !Blank(ToS(Get(c, "vmid"), inspect)) && Screen(c) == Ok(f) && FamilyOf(f.driverType) == Some(family)
    ensures Setup(c, inspect) == Ok(Blueprint(Assemble(c, ToS(Get(c, "vmid"), inspect), f), family, ExtraConfig(family, c)))
  {
    StripEmptyIffBlank(ToS(Get(c, "vmid"), inspect));
  }

  /** What the minimal configuration holds, key by key, for the keys construction reads. */
  predicate MinimalShape(c: Config, id: string, driver: string, user: string, pass: string) {
    && Get(c, "vmid") == Str(id) && Get(c, "driver") == Str(driver)
    && Get(c, "credentials") == List([Hash(map["user" := Str(user), "pass" := Str(pass)])])
    && Get(c, "location") == Nil && Get(c, "type") == Nil
    && Get(c, "user") == Nil && Get(c, "host") == Nil && Get(c, "port") == Nil && Get(c, "pass") == Nil
    && Get(c, "hostname") == Nil && Get(c, "name_label") == Nil
  }

  lemma MinimalConfigShape(id: string, driver: string, user: string, pass: string)
    ensures MinimalShape(MinimalConfig(id, driver, user, pass), id, driver, user, pass)
  {
    var c := MinimalConfig(id, driver, user, pass);
    assert Get(c, "vmid") == Str(id) && Get(c, "driver") == Str(driver);
    assert Get(c, "location") == Nil && Get(c, "type") == Nil;
    assert Get(c, "user") == Nil && Get(c, "host") == Nil && Get(c, "port") == Nil && Get(c, "pass") == Nil;
    assert Get(c, "hostname") == Nil && Get(c, "name_label") == Nil;
  }

  lemma MinimalScreen(c: Config, id: string, driver: string, user: string, pass: string)
    requires MinimalShape(c, id, driver, user, pass)
    requires AllowListed(driver) && AllowListed(user) && AllowListed(pass)
    ensures Screen(c) == Ok(Screening(
              Downcase(driver), Some(""), "", [Hash(map["user" := Str(user), "pass" := Str(pass)])],
              Some(ActiveCredential(user, pass, Some(""))), Remote(Some(""), Some(""), Some(""), Some(""))))
  {
    var creds := [Hash(map["user" := Str(user), "pass" := Str(pass)])];
    var empty := Remote(Some(""), Some(""), Some(""), Some(""));
    AllowListedAccepted(driver);
    MinimalCredential(user, pass);
    ScreenOf(c, driver, Some(""), Some(""), creds, Some(ActiveCredential(user, pass, Some(""))), empty);
  }

  /**
   * A configuration with only an id, a driver and one credential of
   * allow-listed strings constructs a VM of the family the driver names, with
   * the id as hostname, "" as type and the credential as active one.
   */
  lemma MinimalConfigSetup(id: string, driver: string, user: string, pass: string, inspect: Value -> string)
    requires !Blank(id) && AllowListed(driver) && AllowListed(user) && AllowListed(pass)
    requires FamilyOf(Downcase(driver)).Some?
    ensures Setup(MinimalConfig(id, driver, user, pass), inspect).Ok?
    ensures var b := Setup(MinimalConfig(id, driver, user, pass), inspect).value;
      && b.family == FamilyOf(Downcase(driver)).value
      && b.settings.vmid == id && b.settings.hostname == Str(id)
      && b.settings.vmType == ""
      && b.settings.active == Some(ActiveCredential(user, pass, Some("")))
  {
    MinimalConfigShape(id, driver, user, pass);
    MinimalShapeSetup(MinimalConfig(id, driver, user, pass), id, driver, user, pass, inspect);
  }

  lemma MinimalShapeSetup(c: Config, id: string, driver: string, user: string, pass: string, inspect: Value -> string)
    requires MinimalShape(c, id, driver, user, pass)
    requires !Blank(id) && AllowListed(driver) && AllowListed(user) && AllowListed(pass)
    requires FamilyOf(Downcase(driver)).Some?
    ensures Setup(c, inspect).Ok?
    ensures var b := Setup(c, inspect).value;
      && b.family == FamilyOf(Downcase(driver)).value
      && b.settings.vmid == id && b.settings.hostname == Str(id)
      && b.settings.vmType == ""
      && b.settings.active == Some(ActiveCredential(user, pass, Some("")))
  {
    assert ToS(Get(c, "vmid"), inspect) == id;
    MinimalScreen(c, id, driver, user, pass);
    SetupOf(c, inspect, Screen(c).value, FamilyOf(Downcase(driver)).value);
  }

  /**
   * `{vmid: "vm-1", driver: "VirtualBox", credentials: [{user: "admin", pass: "s3cr3t"}]}`
   * selects the VirtualBox driver, takes its hostname from the id and, the
   * type being absent, stores "" as the type.
   */
  lemma VirtualBoxExample(inspect: Value -> string)
    ensures var r := Setup(MinimalConfig("vm-1", "VirtualBox", "admin", "s3cr3t"), inspect);
      && r.Ok? && r.value.family == VirtualBox
      && r.value.settings.hostname == Str("vm-1") && r.value.settings.vmType == ""
  {
    VirtualBoxNamesFamily();
    VirtualBoxStrings();
    MinimalConfigSetup("vm-1", "VirtualBox", "admin", "s3cr3t", inspect);
  }

  /**
   * A Symbol credential such as `:admin` answers nil to `['user']`,
   * `['pass']` and `['keyfile']`, which the filter turns into `""`: it is
   * accepted, with empty user, pass and keyfile.
   */
  lemma SymbolCredentialExample()
    ensures FirstCredential(Sym("admin")) == Ok(ActiveCredential("", "", Some("")))
  {
    NotOccurs("user", "admin");
    NotOccurs("pass", "admin");
    NotOccurs("keyfile", "admin");
  }

  /** A key longer than the text, or differing from it at every index, does not occur. */
  lemma NotOccurs(key: string, s: string)
    requires key != [] && forall i :: 0 <= i <= |s| - |key| ==> key[0] != s[i]
    ensures StringIndex(s, key) == Nil
  {
    forall i | 0 <= i <= |s| - |key| ensures !OccursAtIndex(key, s, i) {
      assert s[i..i + |key|][0] == s[i];
    }
  }

  /** The caller's hash afterwards holds the lower-cased "virtualbox" as its driver. */
  lemma VirtualBoxConfigAfter(inspect: Value -> string)
    ensures Get(ConfigAfter(MinimalConfig("vm-1", "VirtualBox", "admin", "s3cr3t"), inspect), "driver") == Str("virtualbox")
  {
    var c := MinimalConfig("vm-1", "VirtualBox", "admin", "s3cr3t");
    MinimalConfigShape("vm-1", "VirtualBox", "admin", "s3cr3t");
    VirtualBoxStrings();
    AllowListedAccepted("VirtualBox");
    assert ToS(Get(c, "vmid"), inspect) == "vm-1";
    StripEmptyIffBlank("vm-1");
    VirtualBoxLowered();
  }

  lemma VirtualBoxNamesFamily()
    ensures FamilyOf(Downcase("VirtualBox")) == Some(VirtualBox)
  {
    VirtualBoxLowered();
    FamilyOfName(VirtualBox, "virtualbox");
  }

  lemma VirtualBoxLowered()
    ensures Downcase("VirtualBox") == "virtualbox"
  {
    DowncaseOf("VirtualBox", "virtualbox");
  }

  lemma DowncaseOf(s: string, t: string)
    requires |s| == |t| && forall i :: 0 <= i < |s| ==> Lower(s[i]) == t[i]
    ensures Downcase(s) == t
  {
  }

  lemma VirtualBoxStrings()
    ensures !Blank("vm-1") && AllowListed("VirtualBox") && AllowListed("admin") && AllowListed("s3cr3t")
  {
    assert !IsStripSpace("vm-1"[0]);
  }

  /** A single-line location with a shell metacharacter aborts construction with the sanitizer's error for it. */
  lemma RejectedLocation(c: Config, i: nat, inspect: Value -> string)
    requires !Blank(ToS(Get(c, "vmid"), inspect))
    requires Get(c, "driver").Str? && AllowListed(Get(c, "driver").s)
    requires Get(c, "location").Str? && '\n' !in Get(c, "location").s
    requires i < |Get(c, "location").s| && Get(c, "location").s[i] in ";|&$`'"
    ensures Setup(c, inspect) == Err(InvalidCharacter(Get(c, "location").s))
  {
    SetupVmid(c, inspect);
    AllowListedAccepted(Get(c, "driver").s);
    RejectsShellMetacharacters(Get(c, "location").s, i);
  }

  /** `{vmid: "vm-2", driver: "workstation", location: "C:\\vms\\bad;rm -rf"}` fails on its location. */
  lemma BadLocationExample(inspect: Value -> string)
    ensures var c := map["vmid" := Str("vm-2"), "driver" := Str("workstation"),
                         "location" := Str("C:\\vms\\bad;rm -rf")];
      Setup(c, inspect) == Err(InvalidCharacter("C:\\vms\\bad;rm -rf"))
  {
    var c := map["vmid" := Str("vm-2"), "driver" := Str("workstation"), "location" := Str("C:\\vms\\bad;rm -rf")];
    assert Get(c, "vmid") == Str("vm-2") && Get(c, "driver") == Str("workstation");
    assert Get(c, "location") == Str("C:\\vms\\bad;rm -rf");
    assert !IsStripSpace("vm-2"[0]);
    assert "C:\\vms\\bad;rm -rf"[10] == ';';
    RejectedLocation(c, 10, inspect);
  }
}
