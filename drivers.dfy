/**
 * The driver side of a lab VM: the eight backend families the VM entity can
 * select, the calls of the driver contract, and an abstract driver that
 * records every call it receives and answers through a backend whose
 * behaviour lies outside this model.
 */
module Drivers {
  import opened Wrappers
  import opened RubyValues

  datatype Family =
    | Workstation
    | RemoteWorkstation
    | VirtualBox
    | Fog
    | Dynagen
    | RemoteEsxi
    | Vsphere
    | XenApi

  /** The driver-type identifier that selects each family. */
  function Name(f: Family): string {
    match f
    case Workstation => "workstation"
    case RemoteWorkstation => "remote_workstation"
    case VirtualBox => "virtualbox"
    case Fog => "fog"
    case Dynagen => "dynagen"
    case RemoteEsxi => "remote_esxi"
    case Vsphere => "vsphere"
    case XenApi => "xenapi"
  }

  /** The if/elsif chain over the (already lower-cased) driver type: one family or none. */
  function FamilyOf(t: string): (r: Option<Family>)
    ensures r.Some? ==> Name(r.value) == t
    ensures r.None? ==> forall f: Family :: Name(f) != t
  {
    if t == "workstation" then Some(Workstation)
    else if t == "remote_workstation" then Some(RemoteWorkstation)
    else if t == "virtualbox" then Some(VirtualBox)
    else if t == "fog" then Some(Fog)
    else if t == "dynagen" then Some(Dynagen)
    else if t == "remote_esxi" then Some(RemoteEsxi)
    else if t == "vsphere" then Some(Vsphere)
    else if t == "xenapi" then Some(XenApi)
    else None
  }

  /** Each family is selected by its own name and by nothing else. */
  lemma FamilyOfName(f: Family, t: string)
    ensures FamilyOf(t) == Some(f) <==> t == Name(f)
  {
  }

  /**
   * The second constructor argument of the families that take one:
   * `config['fog_config']` for fog, `config['dynagen_config']` for dynagen.
   */
  function ExtraConfig(f: Family, c: Config): (r: Option<Value>)
    ensures r.Some? <==> f == Fog || f == Dynagen
    ensures f == Fog ==> r == Some(Get(c, "fog_config"))
    ensures f == Dynagen ==> r == Some(Get(c, "dynagen_config"))
  {
    match f
    case Fog => Some(Get(c, "fog_config"))
    case Dynagen => Some(Get(c, "dynagen_config"))
    case _ => None
  }

  /** One call of the driver contract, with its arguments. */
  datatype Call =
    | IsRunning
    | Location
    | Start
    | Stop
    | Pause
    | Suspend
    | Reset
    | Resume
    | QuerySnapshots
    | CreateSnapshot(snapshot: string)
    | RevertSnapshot(snapshot: string)
    | DeleteSnapshot(snapshot: string)
    | CopyTo(from: string, to: string)
    | CopyFrom(from: string, to: string)
    | RunCommand(command: string)
    | CheckFileExists(file: string)
    | CreateDirectory(directory: string)

  /** What a driver call does for its caller: return a value or raise. */
  datatype Reply = Returned(value: Value) | Raised(message: string)

  /** A backend's answer to a call, given the calls it received before. */
  type Backend = (seq<Call>, Call) -> Reply

  /** A driver instance: its family, what it was constructed with, and the calls made on it. */
  class Driver {
    const family: Family
    const config: Config
    const extra: Option<Value>
    const backend: Backend
    var calls: seq<Call>

    constructor (family: Family, config: Config, extra: Option<Value>, backend: Backend)
      ensures this.family == family && this.config == config && this.extra == extra
      ensures this.backend == backend
      ensures calls == []
    {
      this.family := family;
      this.config := config;
      this.extra := extra;
      this.backend := backend;
      calls := [];
    }

    /** Perform one call: it is recorded, whether the backend returns or raises. */
    method Invoke(call: Call) returns (r: Reply)
      modifies this
      ensures calls == old(calls) + [call]
      ensures r == backend(old(calls), call)
    {
      r := backend(calls, call);
      calls := calls + [call];
    }
  }
}
