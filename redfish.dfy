/**
 * The part of the Redfish client library that the BMC driver relies on.
 * The library itself is not modelled: the systems a service lists, and
 * whether each request succeeds, come from the data below, and every
 * modifying call is recorded as a `Request` in the trace a caller returns.
 */
module Redfish {
  import opened Wrappers

  datatype OverrideEnabled = Disabled | Once | Continuous

  datatype OverrideMode = Legacy | UEFI

  /** Boot devices a one-time override can name. */
  datatype OverrideTarget =
    | Pxe | Floppy | Cd | Usb | Hdd | BiosSetup | Utilities | Diags
    | UefiShell | UefiTarget | SDCard | UefiHttp | RemoteDrive | UefiBootNext

  /** A system's boot override settings, and the body of a request that
      changes them: an absent field is left out of the request. */
  datatype Boot = Boot(
    enabled: Option<OverrideEnabled>,
    mode: Option<OverrideMode>,
    target: Option<OverrideTarget>)

  datatype PowerState = On | Off | PoweringOn | PoweringOff | Paused

  datatype ResetType =
    | On | ForceOff | GracefulShutdown | GracefulRestart | ForceRestart
    | Nmi | ForceOn | PushPowerButton | PowerCycle

  /** The observable state of one computer system object. */
  datatype SystemRecord = SystemRecord(
    odataId: string,
    etag: string,
    etagMatchDisabled: bool,
    boot: Boot,
    power: PowerState)

  /** A computer system object, as the library hands it out; the driver
      rewrites its URI and its entity-tag handling in place. */
  class ComputerSystem {
    var odataId: string
    var etag: string
    var etagMatchDisabled: bool
    const boot: Boot
    const powerState: PowerState

    function View(): (s: SystemRecord)
      reads this
    {
      SystemRecord(odataId, etag, etagMatchDisabled, boot, powerState)
    }

    constructor (s: SystemRecord)
      ensures View() == s
    {
      odataId := s.odataId;
      etag := s.etag;
      etagMatchDisabled := s.etagMatchDisabled;
      boot := s.boot;
      powerState := s.power;
    }

    /** Sets the entity tag later updates of this system are conditioned on. */
    method SetETag(tag: string)
      modifies this
      ensures View() == old(View()).(etag := tag)
    {
      etag := tag;
    }

    /** Turns the entity-tag condition on later updates off or on. */
    method DisableEtagMatch(disabled: bool)
      modifies this
      ensures View() == old(View()).(etagMatchDisabled := disabled)
    {
      etagMatchDisabled := disabled;
    }
  }

  /** A modifying call made through the library. */
  datatype Request =
      /** ComputerSystem.SetBoot on the system in the state recorded. */
    | SetBoot(system: SystemRecord, boot: Boot)
      /** APIClient.PatchWithHeaders of `{"Boot": body}` to `uri`. */
    | Patch(uri: string, body: Boot, headers: map<string, string>)
      /** ComputerSystem.Reset on the system in the state recorded. */
    | Reset(system: SystemRecord, kind: ResetType)
      /** APIClient.Logout. */
    | SessionLogout

  /** The service root: the systems collection it lists and whether listing
      it reports an error. */
  datatype Service = Service(members: seq<SystemRecord>, listFails: bool)

  /** A connected client. `rejects` holds the positions, in issue order, of
      the requests the library reports as failed; `closeFails` says whether
      closing a PATCH response body reports an error. */
  datatype ApiClient = ApiClient(service: Service, rejects: set<nat>, closeFails: bool)

  /** Service.Systems: one fresh object per listed member, in order, and
      whether the listing reported an error. */
  method ListSystems(service: Service) returns (systems: seq<ComputerSystem>, ok: bool)
    ensures ok == !service.listFails
    ensures |systems| == |service.members|
    ensures forall k :: 0 <= k < |systems| ==> fresh(systems[k]) && systems[k].View() == service.members[k]
    ensures forall a, b :: 0 <= a < b < |systems| ==> systems[a] != systems[b]
  {
    systems := [];
    while |systems| < |service.members|
      invariant |systems| <= |service.members|
      invariant forall k :: 0 <= k < |systems| ==> fresh(systems[k]) && systems[k].View() == service.members[k]
      invariant forall a, b :: 0 <= a < b < |systems| ==> systems[a] != systems[b]
    {
      var s := new ComputerSystem(service.members[|systems|]);
      systems := systems + [s];
    }
    ok := !service.listFails;
  }

  /** Issues `q` as the next request after `sent`; `ok` is false when the
      library reports an error for it. */
  method Send(client: ApiClient, sent: seq<Request>, q: Request) returns (sent': seq<Request>, ok: bool)
    ensures sent' == sent + [q]
    ensures ok <==> |sent| !in client.rejects
  {
    sent' := sent + [q];
    ok := |sent| !in client.rejects;
  }
}
