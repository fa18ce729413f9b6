/**
 * What `Lab::Vm#to_yaml` produces from the fields of a VM: a fixed header,
 * the connection block, the optional platform and fog blocks, and one
 * user/pass pair per credential. `dump` stands for the YAML library's
 * `Object#to_yaml`, `inspect` for `Object#inspect` inside `to_s`.
 */
module VmYaml {
  import opened Wrappers
  import opened RubyValues
  import opened Sanitizer
  import opened VmConfig

  /** `"#{x}"` for a field `filter_input` may have set to nil. */
  function OptToS(o: Option<string>): string {
    if o.Some? then o.value else ""
  }

  /** Lines 251-259: the header, always emitted, one line per field in this order. */
  function Header(st: Settings, inspect: Value -> string): string {
    (" - vmid: " + st.vmid + "\n")
    + ("   hostname: " + ToS(st.hostname, inspect) + "\n")
    + ("   driver: " + st.driverType + "\n")
    + ("   description: |\n " + ToS(st.description, inspect) + "\n")
    + ("   location: " + OptToS(st.location) + "\n")
    + ("   type: " + st.vmType + "\n")
    + ("   tools: " + ToS(st.tools, inspect) + "\n")
    + ("   os: " + ToS(st.os, inspect) + "\n")
    + ("   arch: " + ToS(st.arch, inspect) + "\n")
  }

  /** The four connection lines, in order. */
  function RemoteLines(r: Remote): string {
    ("   user: " + OptToS(r.user) + "\n")
    + ("   host: " + OptToS(r.host) + "\n")
    + ("   port: " + OptToS(r.port) + "\n")
    + ("   pass: " + OptToS(r.pass) + "\n")
  }

  /** Lines 261-266: the connection block, emitted when `@user or @host` is truthy. */
  function RemoteBlock(r: Remote): (out: string)
    ensures out != [] <==> r.user.Some? || r.host.Some?
    ensures out != [] ==> out == RemoteLines(r)
  {
    if r.user.Some? || r.host.Some? then RemoteLines(r) else ""
  }

  /** Lines 268-270. */
  function PlatformBlock(platform: Value, inspect: Value -> string): (out: string)
    ensures out != [] <==> Truthy(platform)
    ensures Truthy(platform) ==> out == "   platform: " + ToS(platform, inspect) + "\n"
  {
    if Truthy(platform) then "   platform: " + ToS(platform, inspect) + "\n" else ""
  }

  /** Lines 272-274: the library's YAML dump of the fog configuration, when there is one. */
  function FogBlock(fogConfig: Value, dump: Value -> string): (out: string)
    ensures !Truthy(fogConfig) ==> out == []
    ensures Truthy(fogConfig) ==> out == dump(fogConfig)
  {
    if Truthy(fogConfig) then dump(fogConfig) else ""
  }

  /** A credential that `credential['user']` can be evaluated on without raising. */
  predicate Indexable(cred: Value) {
    cred.Hash? || cred.Str? || cred.Sym?
  }

  /** Lines 282-283: the pair of lines for one credential. */
  function CredentialEntry(cred: Value, inspect: Value -> string): (r: Result<string, Error>)
    ensures r.Ok? <==> Indexable(cred)
    ensures r.Err? ==> r.error == RubyError
    ensures cred.Hash? ==> r == Ok(("     - user: " + ToS(Get(cred.entries, "user"), inspect) + "\n")
                                   + ("       pass: " + ToS(Get(cred.entries, "pass"), inspect) + "\n"))
  {
    var user :- Index(cred, "user");
    var pass := Index(cred, "pass").value;  // cannot raise once the first lookup did not
    Ok(("     - user: " + ToS(user, inspect) + "\n") + ("       pass: " + ToS(pass, inspect) + "\n"))
  }

  /**
   * The texts `entry` gives for `items`, joined in list order, or the
   * exception of the first item whose text raises.
   */
  function Join(items: seq<Value>, entry: Value -> Result<string, Error>): (r: Result<string, Error>)
    ensures r.Ok? <==> forall i :: 0 <= i < |items| ==> entry(items[i]).Ok?
    ensures r.Err? ==> exists k :: 0 <= k < |items| && entry(items[k]) == r
                                  && forall j :: 0 <= j < k ==> entry(items[j]).Ok?
  {
    if items == [] then Ok("")
    else
      var init := items[..|items| - 1];
      assert forall i :: 0 <= i < |init| ==> init[i] == items[i];
      var before := Join(init, entry);
      var last := entry(items[|items| - 1]);
      if before.Err? then before
      else if last.Err? then last
      else Ok(before.value + last.value)
  }

  /** Lines 281-284: the entries of all credentials, in list order. */
  function CredentialsText(creds: seq<Value>, inspect: Value -> string): (r: Result<string, Error>)
    ensures r.Ok? <==> forall i :: 0 <= i < |creds| ==> Indexable(creds[i])
    ensures r.Err? ==> r.error == RubyError
  {
    Join(creds, CredentialEntries(inspect))
  }

  /** `CredentialEntry` as a function value, for `Join`. */
  function CredentialEntries(inspect: Value -> string): Value -> Result<string, Error> {
    cred => CredentialEntry(cred, inspect)
  }

  /** Lines 246-287: the whole document. */
  function Yaml(st: Settings, inspect: Value -> string, dump: Value -> string): (r: Result<string, Error>)
    ensures r.Ok? <==> forall i :: 0 <= i < |st.credentials| ==> Indexable(st.credentials[i])
    ensures r.Err? ==> r.error == RubyError
  {
    var creds :- CredentialsText(st.credentials, inspect);
    Ok(Header(st, inspect) + RemoteBlock(st.remote) + PlatformBlock(st.platform, inspect)
       + FogBlock(st.fogConfig, dump) + "   credentials:\n" + creds)
  }

  /** Adding an item at the end adds its text at the end. */
  lemma JoinSnoc(items: seq<Value>, x: Value, entry: Value -> Result<string, Error>)
    requires Join(items + [x], entry).Ok?
    ensures Join(items, entry).Ok? && entry(x).Ok?
    ensures Join(items + [x], entry).value == Join(items, entry).value + entry(x).value
  {
    assert (items + [x])[..|items|] == items;
  }

  /** The join of the first `i + 1` items extends that of the first `i` by the next item's text. */
  lemma JoinStep(items: seq<Value>, i: nat, entry: Value -> Result<string, Error>)
    requires i < |items| && Join(items[..i], entry).Ok? && entry(items[i]).Ok?
    ensures Join(items[..i + 1], entry).Ok?
    ensures Join(items[..i + 1], entry).value == Join(items[..i], entry).value + entry(items[i]).value
  {
    assert items[..i + 1][..i] == items[..i];
  }

  /** The join of a concatenation is the concatenation of the joins. */
  lemma {:induction false} JoinAppend(a: seq<Value>, b: seq<Value>, entry: Value -> Result<string, Error>)
    requires Join(a + b, entry).Ok?
    ensures Join(a, entry).Ok? && Join(b, entry).Ok?
    ensures Join(a + b, entry).value == Join(a, entry).value + Join(b, entry).value
    decreases |b|
  {
    if b == [] {
      assert a + b == a;
    } else {
      var b', x := b[..|b| - 1], b[|b| - 1];
      assert a + b == (a + b') + [x] by { assert b == b' + [x]; }
      JoinSnoc(a + b', x, entry);
      JoinAppend(a, b', entry);
      assert b' + [x] == b;
      JoinSnoc(b', x, entry);
    }
  }

  /** One user/pass pair per credential, in list order: each credential's entry sits between those of its neighbours. */
  lemma CredentialsInOrder(before: seq<Value>, cred: Value, after: seq<Value>, inspect: Value -> string)
    requires CredentialsText(before + [cred] + after, inspect).Ok?
    ensures CredentialsText(before, inspect).Ok? && CredentialEntry(cred, inspect).Ok? && CredentialsText(after, inspect).Ok?
    ensures CredentialsText(before + [cred] + after, inspect).value
            == CredentialsText(before, inspect).value + CredentialEntry(cred, inspect).value
               + CredentialsText(after, inspect).value
  {
    var entry := CredentialEntries(inspect);
    JoinAppend(before + [cred], after, entry);
    JoinAppend(before, [cred], entry);
    assert [cred][..0] == [];
  }

  lemma Associative(x: string, y: string, z: string)
    ensures x + y + z == x + (y + z)
  {
  }

  lemma Associative4(x: string, a: string, b: string, c: string, d: string)
    ensures x + a + b + c + d == x + (a + b + c + d)
  {
    Associative(x, a, b);
    Associative(x, a + b, c);
    Associative(x, a + b + c, d);
  }

  lemma ConcatParts(x: string, y: string, z: string)
    ensures x <= x + y + z
    ensures |z| <= |x + y + z| && (x + y + z)[|x + y + z| - |z|..] == z
  {
    assert x + y + z == x + (y + z);
  }

  /** A document that is produced starts with the header and ends with the credential section. */
  lemma YamlLayout(st: Settings, inspect: Value -> string, dump: Value -> string)
    requires Yaml(st, inspect, dump).Ok?
    ensures var out := Yaml(st, inspect, dump).value;
      var tail := "   credentials:\n" + CredentialsText(st.credentials, inspect).value;
      && Header(st, inspect) <= out
      && |tail| <= |out| && out[|out| - |tail|..] == tail
  {
    var head := Header(st, inspect);
    var r, p, f := RemoteBlock(st.remote), PlatformBlock(st.platform, inspect), FogBlock(st.fogConfig, dump);
    var creds := CredentialsText(st.credentials, inspect).value;
    var tail := "   credentials:\n" + creds;
    assert Yaml(st, inspect, dump).value == head + r + p + f + "   credentials:\n" + creds;
    Associative(head + r + p + f, "   credentials:\n", creds);
    Associative(head + r, p, f);
    Associative(head, r, p + f);
    ConcatParts(head, r + p + f, tail);
  }

  /**
   * For a constructed VM the connection block is missing only when both
   * `user` and `host` are present, truthy and not strings: an absent field
   * becomes `""`, which Ruby treats as true, so local VMs emit it too.
   */
  lemma SetupRemoteBlock(c: Config, inspect: Value -> string)
    requires Setup(c, inspect).Ok?
    ensures var st := Setup(c, inspect).value.settings;
      RemoteBlock(st.remote) == []
      <==> (Truthy(Get(c, "user")) && !Get(c, "user").Str? && Truthy(Get(c, "host")) && !Get(c, "host").Str?)
  {
    SetupScreening(c, inspect);
    var u := FilterInput(Get(c, "user"));
    var h := FilterInput(Get(c, "host"));
    assert u.Ok? && h.Ok?;
    assert RemoteFields(c).value.user == u.value && RemoteFields(c).value.host == h.value;
  }

  /** A VM configured without `user` and without `host` still gets the connection block, with empty values. */
  lemma LocalVmEmitsRemoteBlock(c: Config, inspect: Value -> string)
    requires Setup(c, inspect).Ok?
    requires "user" !in c && "host" !in c
    ensures var r := Setup(c, inspect).value.settings.remote;
      RemoteBlock(r) == RemoteLines(r) && r.user == Some("") && r.host == Some("")
  {
    assert Get(c, "user") == Nil && Get(c, "host") == Nil;
    SetupScreening(c, inspect);
    var u := FilterInput(Get(c, "user"));
    var h := FilterInput(Get(c, "host"));
    assert u == Ok(Some("")) && h == Ok(Some(""));
    assert RemoteFields(c).value.user == u.value && RemoteFields(c).value.host == h.value;
  }

  /**
   * For a constructed VM only a later credential can make `to_yaml` raise:
   * the first one was already indexed by `initialize`.
   */
  lemma SetupYamlFailure(c: Config, inspect: Value -> string, dump: Value -> string)
    requires Setup(c, inspect).Ok?
    requires Yaml(Setup(c, inspect).value.settings, inspect, dump).Err?
    ensures var creds := Setup(c, inspect).value.settings.credentials;
      exists i :: 1 <= i < |creds| && !Indexable(creds[i])
  {
    SetupWellFormed(c, inspect);
    var creds := Setup(c, inspect).value.settings.credentials;
    if creds != [] {
      assert FirstCredential(creds[0]).Ok?;
      assert Index(creds[0], "user").Ok?;
    }
    var i :| 0 <= i < |creds| && !Indexable(creds[i]);
    assert i != 0;
  }

  /** `@dynagen_config` is never assigned, so `dynagen_config` of the configuration never reaches the document. */
  lemma DynagenConfigNotSerialized(c1: Config, c2: Config, inspect: Value -> string, dump: Value -> string)
    requires forall k :: k != "dynagen_config" ==> Get(c1, k) == Get(c2, k)
    ensures Setup(c1, inspect).Ok? <==> Setup(c2, inspect).Ok?
    ensures Setup(c1, inspect).Ok? ==>
      Yaml(Setup(c1, inspect).value.settings, inspect, dump) == Yaml(Setup(c2, inspect).value.settings, inspect, dump)
  {
    SettingsIgnoreDynagenConfig(c1, c2, inspect);
  }
}
