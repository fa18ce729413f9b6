/**
 * `Lab::Vm`: construction from a configuration hash, the operations that
 * forward to the driver, the two composed operations, and the serializers.
 */
module Lab {
  import opened Wrappers
  import opened RubyValues
  import opened Sanitizer
  import opened Drivers
  import opened VmConfig
  import opened VmYaml

  /** `String#downcase!`: lower-case the characters of a string buffer in place. */
  method DowncaseInPlace(a: array<char>)
    modifies a
    ensures a[..] == Downcase(old(a[..]))
  {
    var i := 0;
    while i < a.Length
      invariant 0 <= i <= a.Length
      invariant forall k :: 0 <= k < i ==> a[k] == Lower(old(a[k]))
      invariant forall k :: i <= k < a.Length ==> a[k] == old(a[k])
    {
      a[i] := Lower(a[i]);
      i := i + 1;
    }
  }

  const InternetExplorer: string := "\"C:\\program files\\internet explorer\\iexplore.exe\" "
  const Firefox: string := "firefox "

  /**
   * Lines 233-237: the command that opens `uri` in a browser, chosen by the
   * configured OS; the uri is appended unchanged.
   */
  function BrowserCommand(os: Value, uri: string): (cmd: string)
    ensures |uri| <= |cmd| && cmd[|cmd| - |uri|..] == uri
    ensures cmd[..|cmd| - |uri|] == (if os == Str("windows") then InternetExplorer else Firefox)
  {
    (if os == Str("windows") then InternetExplorer else Firefox) + uri
  }

  /** Only the uri varies with the uri: the command determines the uri it was built for. */
  lemma BrowserCommandInjective(os: Value, u1: string, u2: string)
    requires BrowserCommand(os, u1) == BrowserCommand(os, u2)
    ensures u1 == u2
  {
    var c := BrowserCommand(os, u1);
    assert |u1| == |u2| by {
      assert |c| == |(if os == Str("windows") then InternetExplorer else Firefox)| + |u1|;
      assert |c| == |(if os == Str("windows") then InternetExplorer else Firefox)| + |u2|;
    }
    assert u1 == c[|c| - |u1|..];
  }

  /** A VM: its fields and the driver it owns. */
  class Vm {
    const settings: Settings
    const driver: Driver

    /**
     * What construction guarantees: a usable id, the matching driver,
     * sanitized fields. It reads constant fields only, so no later call can
     * break it.
     */
    ghost predicate Valid() {
      && !Blank(settings.vmid)
      && FamilyOf(settings.driverType) == Some(driver.family)
      && driver.extra == ExtraConfig(driver.family, driver.config)
      && Sanitary(settings)
    }

    constructor (settings: Settings, driver: Driver)
      ensures this.settings == settings && this.driver == driver
    {
      this.settings := settings;
      this.driver := driver;
    }

    // Lines 157-228: each operation makes exactly its one driver call and returns the driver's reply.

    method IsRunning() returns (r: Reply)
      modifies driver
      ensures driver.calls == old(driver.calls) + [Call.IsRunning]
      ensures r == driver.backend(old(driver.calls), Call.IsRunning)
    {
      r := driver.Invoke(Call.IsRunning);
    }

    /** The driver's location, not the `location` stored at construction. */
    method Location() returns (r: Reply)
      modifies driver
      ensures driver.calls == old(driver.calls) + [Call.Location]
      ensures r == driver.backend(old(driver.calls), Call.Location)
    {
      r := driver.Invoke(Call.Location);
    }

    method Start() returns (r: Reply)
      modifies driver
      ensures driver.calls == old(driver.calls) + [Call.Start]
      ensures r == driver.backend(old(driver.calls), Call.Start)
    {
      r := driver.Invoke(Call.Start);
    }

    method Stop() returns (r: Reply)
      modifies driver
      ensures driver.calls == old(driver.calls) + [Call.Stop]
      ensures r == driver.backend(old(driver.calls), Call.Stop)
    {
      r := driver.Invoke(Call.Stop);
    }

    method Pause() returns (r: Reply)
      modifies driver
      ensures driver.calls == old(driver.calls) + [Call.Pause]
      ensures r == driver.backend(old(driver.calls), Call.Pause)
    {
      r := driver.Invoke(Call.Pause);
    }

    method Suspend() returns (r: Reply)
      modifies driver
      ensures driver.calls == old(driver.calls) + [Call.Suspend]
      ensures r == driver.backend(old(driver.calls), Call.Suspend)
    {
      r := driver.Invoke(Call.Suspend);
    }

    method Reset() returns (r: Reply)
      modifies driver
      ensures driver.calls == old(driver.calls) + [Call.Reset]
      ensures r == driver.backend(old(driver.calls), Call.Reset)
    {
      r := driver.Invoke(Call.Reset);
    }

    method Resume() returns (r: Reply)
      modifies driver
      ensures driver.calls == old(driver.calls) + [Call.Resume]
      ensures r == driver.backend(old(driver.calls), Call.Resume)
    {
      r := driver.Invoke(Call.Resume);
    }

    method QuerySnapshots() returns (r: Reply)
      modifies driver
      ensures driver.calls == old(driver.calls) + [Call.QuerySnapshots]
      ensures r == driver.backend(old(driver.calls), Call.QuerySnapshots)
    {
      r := driver.Invoke(Call.QuerySnapshots);
    }

    method CreateSnapshot(snapshot: string) returns (r: Reply)
      modifies driver
      ensures driver.calls == old(driver.calls) + [Call.CreateSnapshot(snapshot)]
      ensures r == driver.backend(old(driver.calls), Call.CreateSnapshot(snapshot))
    {
      r := driver.Invoke(Call.CreateSnapshot(snapshot));
    }

    method RevertSnapshot(snapshot: string) returns (r: Reply)
      modifies driver
      ensures driver.calls == old(driver.calls) + [Call.RevertSnapshot(snapshot)]
      ensures r == driver.backend(old(driver.calls), Call.RevertSnapshot(snapshot))
    {
      r := driver.Invoke(Call.RevertSnapshot(snapshot));
    }

    method DeleteSnapshot(snapshot: string) returns (r: Reply)
      modifies driver
      ensures driver.calls == old(driver.calls) + [Call.DeleteSnapshot(snapshot)]
      ensures r == driver.backend(old(driver.calls), Call.DeleteSnapshot(snapshot))
    {
      r := driver.Invoke(Call.DeleteSnapshot(snapshot));
    }

    /**
     * Lines 205-208: revert, then start. A revert that raises ends the
     * operation with its exception, and `start` is never called.
     */
    method RevertAndStart(snapshot: string) returns (r: Reply)
      modifies driver
      ensures var revert := driver.backend(old(driver.calls), Call.RevertSnapshot(snapshot));
        revert.Raised? ==> driver.calls == old(driver.calls) + [Call.RevertSnapshot(snapshot)] && r == revert
      ensures var revert := driver.backend(old(driver.calls), Call.RevertSnapshot(snapshot));
        revert.Returned? ==>
          && driver.calls == old(driver.calls) + [Call.RevertSnapshot(snapshot), Call.Start]
          && r == driver.backend(old(driver.calls) + [Call.RevertSnapshot(snapshot)], Call.Start)
    {
      r := RevertSnapshot(snapshot);
      if r.Raised? {
        return;
      }
      r := Start();
    }

    method CopyTo(from: string, to: string) returns (r: Reply)
      modifies driver
      ensures driver.calls == old(driver.calls) + [Call.CopyTo(from, to)]
      ensures r == driver.backend(old(driver.calls), Call.CopyTo(from, to))
    {
      r := driver.Invoke(Call.CopyTo(from, to));
    }

    method CopyFrom(from: string, to: string) returns (r: Reply)
      modifies driver
      ensures driver.calls == old(driver.calls) + [Call.CopyFrom(from, to)]
      ensures r == driver.backend(old(driver.calls), Call.CopyFrom(from, to))
    {
      r := driver.Invoke(Call.CopyFrom(from, to));
    }

    method RunCommand(command: string) returns (r: Reply)
      modifies driver
      ensures driver.calls == old(driver.calls) + [Call.RunCommand(command)]
      ensures r == driver.backend(old(driver.calls), Call.RunCommand(command))
    {
      r := driver.Invoke(Call.RunCommand(command));
    }

    method CheckFileExists(file: string) returns (r: Reply)
      modifies driver
      ensures driver.calls == old(driver.calls) + [Call.CheckFileExists(file)]
      ensures r == driver.backend(old(driver.calls), Call.CheckFileExists(file))
    {
      r := driver.Invoke(Call.CheckFileExists(file));
    }

    method CreateDirectory(directory: string) returns (r: Reply)
      modifies driver
      ensures driver.calls == old(driver.calls) + [Call.CreateDirectory(directory)]
      ensures r == driver.backend(old(driver.calls), Call.CreateDirectory(directory))
    {
      r := driver.Invoke(Call.CreateDirectory(directory));
    }

    /** Lines 230-240: one `run_command` with the browser command for the configured OS. */
    method OpenUri(uri: string) returns (r: Reply)
      modifies driver
      ensures driver.calls == old(driver.calls) + [Call.RunCommand(BrowserCommand(settings.os, uri))]
      ensures r == driver.backend(old(driver.calls), Call.RunCommand(BrowserCommand(settings.os, uri)))
    {
      var command;
      if settings.os == Str("windows") {
        command := InternetExplorer + uri;
      } else {
        command := Firefox + uri;
      }
      r := RunCommand(command);
    }

    /** Lines 242-244: `"#{@hostname}"`. */
    function ToString(inspect: Value -> string): (s: string)
      ensures settings.hostname.Str? ==> s == settings.hostname.s
      ensures settings.hostname == Nil ==> s == []
    {
      ToS(settings.hostname, inspect)
    }

    /** Lines 246-287, step by step: the document is the one `Yaml` describes. */
    method ToYaml(inspect: Value -> string, dump: Value -> string) returns (r: Result<string, Error>)
      ensures r == Yaml(settings, inspect, dump)
    {
      var out := WriteHeader(settings, inspect);
      out := WriteOptionalBlocks(settings, inspect, dump, out);
      out := out + "   credentials:\n";
      r := WriteCredentials(settings.credentials, inspect, out);
    }
  }

  /** Lines 251-259. */
  method WriteHeader(st: Settings, inspect: Value -> string) returns (out: string)
    ensures out == Header(st, inspect)
  {
    out := " - vmid: " + st.vmid + "\n";
    out := out + ("   hostname: " + ToS(st.hostname, inspect) + "\n");
    out := out + ("   driver: " + st.driverType + "\n");
    out := out + ("   description: |\n " + ToS(st.description, inspect) + "\n");
    out := out + ("   location: " + OptToS(st.location) + "\n");
    out := out + ("   type: " + st.vmType + "\n");
    out := out + ("   tools: " + ToS(st.tools, inspect) + "\n");
    out := out + ("   os: " + ToS(st.os, inspect) + "\n");
    out := out + ("   arch: " + ToS(st.arch, inspect) + "\n");
  }

  /** Lines 261-279: the connection, platform and fog blocks, each only when its condition holds. */
  method WriteOptionalBlocks(st: Settings, inspect: Value -> string, dump: Value -> string, start: string) returns (out: string)
    ensures out == start + RemoteBlock(st.remote) + PlatformBlock(st.platform, inspect) + FogBlock(st.fogConfig, dump)
  {
    out := start;
    if st.remote.user.Some? || st.remote.host.Some? {
      var u, h := "   user: " + OptToS(st.remote.user) + "\n", "   host: " + OptToS(st.remote.host) + "\n";
      var p, s := "   port: " + OptToS(st.remote.port) + "\n", "   pass: " + OptToS(st.remote.pass) + "\n";
      out := out + u;
      out := out + h;
      out := out + p;
      out := out + s;
      Associative4(start, u, h, p, s);
    }
    if Truthy(st.platform) {
      out := out + ("   platform: " + ToS(st.platform, inspect) + "\n");
    }
    if Truthy(st.fogConfig) {
      out := out + dump(st.fogConfig);
    }
  }

  /** Lines 281-284: append one user/pass pair per credential; a credential that cannot be indexed raises. */
  method WriteCredentials(creds: seq<Value>, inspect: Value -> string, head: string) returns (r: Result<string, Error>)
    ensures CredentialsText(creds, inspect).Ok? ==> r == Ok(head + CredentialsText(creds, inspect).value)
    ensures CredentialsText(creds, inspect).Err? ==> r == Err(RubyError)
  {
    var entry := CredentialEntries(inspect);
    var out := head;
    var i := 0;
    while i < |creds|
      invariant 0 <= i <= |creds|
      invariant Join(creds[..i], entry).Ok?
      invariant out == head + Join(creds[..i], entry).value
    {
      var cred := creds[i];
      if !Indexable(cred) {
        // `credential['user']` raises, and so does the whole serialization.
        return Err(RubyError);
      }
      var user := Index(cred, "user").value;
      var pass := Index(cred, "pass").value;
      var userLine := "     - user: " + ToS(user, inspect) + "\n";
      var passLine := "       pass: " + ToS(pass, inspect) + "\n";
      var prev := out;
      out := out + userLine;
      out := out + passLine;
      CredentialStep(creds, i, inspect, head, prev, userLine, passLine);
      i := i + 1;
    }
    assert creds[..i] == creds;
    r := Ok(out);
  }

  /** One iteration of the credential loop extends the document by that credential's entry. */
  lemma CredentialStep(creds: seq<Value>, i: nat, inspect: Value -> string, head: string, prev: string,
                       userLine: string, passLine: string)
    requires i < |creds| && Indexable(creds[i])
    requires Join(creds[..i], CredentialEntries(inspect)).Ok?
    requires prev == head + Join(creds[..i], CredentialEntries(inspect)).value
    requires userLine == "     - user: " + ToS(Index(creds[i], "user").value, inspect) + "\n"
    requires passLine == "       pass: " + ToS(Index(creds[i], "pass").value, inspect) + "\n"
    ensures Join(creds[..i + 1], CredentialEntries(inspect)).Ok?
    ensures prev + userLine + passLine == head + Join(creds[..i + 1], CredentialEntries(inspect)).value
  {
    var entry := CredentialEntries(inspect);
    assert entry(creds[i]) == Ok(userLine + passLine);
    JoinStep(creds, i, entry);
    Associative(prev, userLine, passLine);
    Associative(head, Join(creds[..i], entry).value, userLine + passLine);
  }

  /** `to_s` of a constructed VM: the configured hostname, else `name_label`, else the id. */
  lemma CreatedToString(vm: Vm, c: Config, inspect: Value -> string)
    requires Setup(c, inspect).Ok? && vm.settings == Setup(c, inspect).value.settings
    ensures Truthy(Get(c, "hostname")) ==> vm.ToString(inspect) == ToS(Get(c, "hostname"), inspect)
    ensures !Truthy(Get(c, "hostname")) && Truthy(Get(c, "name_label")) ==>
              vm.ToString(inspect) == ToS(Get(c, "name_label"), inspect)
    ensures !Truthy(Get(c, "hostname")) && !Truthy(Get(c, "name_label")) ==>
              vm.ToString(inspect) == ToS(Get(c, "vmid"), inspect)
  {
    SetupDefaults(c, inspect);
    SetupVmid(c, inspect);
  }

  /**
   * Lines 56-79: the sanitizing steps of construction, in the source's
   * order, with the driver type lower-cased in place.
   */
  method Sanitize(config: Config) returns (r: Result<Screening, Error>, after: Config)
    ensures r == Screen(config)
    ensures after == if FilterInput(Get(config, "driver")).Ok? then LowerDriver(config) else config
  {
    after := config;
    var driverIn :- FilterInput(Get(config, "driver"));
    if driverIn.None? {
      return Err(RubyError), after;  // nil.downcase!
    }
    var buffer := new char[|driverIn.value|](k requires 0 <= k < |driverIn.value| => driverIn.value[k]);
    assert buffer[..] == driverIn.value;
    DowncaseInPlace(buffer);
    var driverType := buffer[..];
    if Get(config, "driver").Str? {
      // `filter_input` handed back the caller's own String, so the hash sees the change.
      after := config["driver" := Str(driverType)];
    }

    var location :- FilterInput(Get(config, "location"));
    var typeIn :- FilterInput(Get(config, "type"));
    var vmType := typeIn.GetOr("unspecified");
    var credentials :- CredentialList(Get(config, "credentials"));

    var active := None;
    if |credentials| > 0 {
      var a :- FirstCredential(credentials[0]);
      active := Some(a);
    }

    var user :- FilterInput(Get(config, "user"));
    var host :- FilterInput(Get(config, "host"));
    var port :- FilterInput(Get(config, "port"));
    var pass :- FilterInput(Get(config, "pass"));
    assert RemoteFields(config) == Ok(Remote(user, host, port, pass));
    r := Ok(Screening(driverType, location, vmType, credentials, active, Remote(user, host, port, pass)));
  }

  /**
   * Lines 88-110: the if/elsif chain over the lower-cased driver type. Each
   * of the eight names constructs a new driver of its family; `fog` and
   * `dynagen` also pass their extra configuration; anything else yields none.
   */
  method NewDriver(driverType: string, config: Config, backendFor: Family -> Backend) returns (d: Option<Driver>)
    ensures d.None? <==> FamilyOf(driverType).None?
    ensures d.Some? ==>
      var family := FamilyOf(driverType).value;
      && fresh(d.value)
      && d.value.family == family && d.value.config == config
      && d.value.extra == ExtraConfig(family, config)
      && d.value.backend == backendFor(family)
      && d.value.calls == []
  {
    var driver;
    if driverType == "workstation" {
      driver := new Driver(Workstation, config, None, backendFor(Workstation));
    } else if driverType == "remote_workstation" {
      driver := new Driver(RemoteWorkstation, config, None, backendFor(RemoteWorkstation));
    } else if driverType == "virtualbox" {
      driver := new Driver(VirtualBox, config, None, backendFor(VirtualBox));
    } else if driverType == "fog" {
      driver := new Driver(Fog, config, Some(Get(config, "fog_config")), backendFor(Fog));
    } else if driverType == "dynagen" {
      driver := new Driver(Dynagen, config, Some(Get(config, "dynagen_config")), backendFor(Dynagen));
    } else if driverType == "remote_esxi" {
      driver := new Driver(RemoteEsxi, config, None, backendFor(RemoteEsxi));
    } else if driverType == "vsphere" {
      driver := new Driver(Vsphere, config, None, backendFor(Vsphere));
    } else if driverType == "xenapi" {
      driver := new Driver(XenApi, config, None, backendFor(XenApi));
    } else {
      return None;
    }
    d := Some(driver);
  }

  /**
   * Lines 42-155, step by step: construction fails exactly when `Setup`
   * does, with the same exception; otherwise it yields a new VM with a new
   * driver of the selected family, constructed with the configuration (and
   * the family's extra argument), on which no call has been made yet.
   */
  method Create(config: Config, inspect: Value -> string, backendFor: Family -> Backend) returns (r: Result<Vm, Error>, after: Config)
    ensures r.Err? <==> Setup(config, inspect).Err?
    ensures r.Err? ==> r.error == Setup(config, inspect).error
    ensures after == ConfigAfter(config, inspect)
    ensures r.Ok? ==>
      var b := Setup(config, inspect).value;
      && fresh(r.value) && fresh(r.value.driver)
      && r.value.settings == b.settings
      && r.value.driver.family == b.family
      && r.value.driver.config == after
      && r.value.driver.extra == b.extra
      && r.value.driver.backend == backendFor(b.family)
      && r.value.driver.calls == []
      && r.value.Valid()
  {
    after := config;
    var vmid := ToS(Get(config, "vmid"), inspect);
    if Strip(vmid) == [] {
      return Err(InvalidVmid), after;
    }

    var hostname := Or(Get(config, "hostname"), Get(config, "name_label"));
    if !Truthy(hostname) {
      hostname := Str(vmid);
    }
    var description := Or(Get(config, "description"), Get(config, "name_description"));

    var screening;
    screening, after := Sanitize(config);
    if screening.Err? {
      return Err(screening.error), after;
    }
    var f := screening.value;
    var d := NewDriver(f.driverType, after, backendFor);
    if d.None? {
      return Err(UnknownDriverType), after;
    }

    var settings := Settings(
      vmid, hostname, f.driverType, f.location, description,
      Get(config, "notes"), Get(config, "tools"), Get(config, "os"), Get(config, "arch"),
      f.vmType, f.credentials, f.active, f.remote,
      Get(config, "platform"), Get(config, "fog_config"), Get(config, "machine_tags"), Get(config, "snapshots"));
    assert settings == Assemble(config, vmid, f);
    LowerDriverKeepsExtra(d.value.family, config);
    var vm := new Vm(settings, d.value);
    SetupWellFormed(config, inspect);
    r := Ok(vm);
  }
}
