/**
 * The Redfish BMC driver: it lists the computer systems of a BMC, prepares
 * each system object from the command-line options, and then sets or
 * disables a one-time PXE boot override, reads the override, powers the
 * systems on or off, or reads their power state.
 */
module Bmc {
  import opened Wrappers
  import opened Redfish
  import opened Issuing
  import QuoteTrim

  datatype Options = Options(
    endpoint: string,
    username: string,
    password: string,
    basicAuth: bool,
    uriSuffix: string,
    entityTag: string,
    disableEtagMatch: bool,
    ifNoneMatchHeader: string)

  /** A driver: its client (absent when none was connected) and its options.
      None of its operations changes either. */
  datatype RedfishBMC = RedfishBMC(client: Option<ApiClient>, options: Options)

  /** The errors an operation returns; all but the PATCH errors wrap the
      library's error with a message naming the step that failed. */
  datatype Error =
    | GetSystemsFailed
    | SetBootPxeFailed
    | DisableBootFailed
    | PatchFailed
    | CloseBodyFailed
    | PowerOnFailed
    | PowerOffFailed

  // ---------------------------------------------------------------------
  // Boot override payloads

  const PxeBootWithSettingUefiBootMode: Boot := Boot(Some(Once), Some(UEFI), Some(Pxe))
  const PxeBootWithoutSettingUefiBootMode: Boot := Boot(Some(Once), None, Some(Pxe))
  const DisableBootWithSettingUefiBootMode: Boot := Boot(Some(Disabled), Some(UEFI), None)
  const DisableBootWithoutSettingUefiBootMode: Boot := Boot(Some(Disabled), None, Some(Pxe))

  /** The two boot-once commands that change the override. */
  datatype BootOnce = EnablePxe | DisableOverride

  /** The payload that enables a one-time PXE boot on a system whose current
      override settings are `current`. */
  function PxeBootFor(current: Boot): (b: Boot)
    ensures b.enabled == Some(Once) && b.target == Some(Pxe)
    ensures b.mode.Some? <==> current.mode != Some(UEFI)
    ensures b.mode.Some? ==> b.mode == Some(UEFI)
  {
    if current.mode != Some(UEFI) then PxeBootWithSettingUefiBootMode
    else PxeBootWithoutSettingUefiBootMode
  }

  /** The payload that disables the one-time boot override. */
  function DisableBootFor(current: Boot): (b: Boot)
    ensures b.enabled == Some(Disabled)
    ensures current.mode != Some(UEFI) ==> b.mode == Some(UEFI) && b.target == None
    ensures current.mode == Some(UEFI) ==> b.mode == None && b.target == Some(Pxe)
  {
    if current.mode != Some(UEFI) then DisableBootWithSettingUefiBootMode
    else DisableBootWithoutSettingUefiBootMode
  }

  /** The payload a boot-once command sends to a system whose current
      override settings are `current`. */
  function BootPayload(action: BootOnce, current: Boot): (b: Boot)
    ensures b.enabled == Some(if action == EnablePxe then Once else Disabled)
    ensures b.mode.Some? <==> current.mode != Some(UEFI)
    ensures b.mode.Some? ==> b.mode == Some(UEFI)
    ensures action == EnablePxe ==> b.target == Some(Pxe)
    ensures action == DisableOverride ==> (b.target.Some? <==> current.mode == Some(UEFI))
  {
    match action
    case EnablePxe => PxeBootFor(current)
    case DisableOverride => DisableBootFor(current)
  }

  /** Reading of a payload as a partial update: fields present in `patch`
      replace those of `current`, absent ones are kept. */
  function Overlay(current: Boot, patch: Boot): Boot
  {
    Boot(
      if patch.enabled.Some? then patch.enabled else current.enabled,
      if patch.mode.Some? then patch.mode else current.mode,
      if patch.target.Some? then patch.target else current.target)
  }

  /** Why the payload depends on the current mode: read as a partial update,
      every payload leaves the override mode at UEFI, and only a system not
      already in UEFI mode is sent the mode at all. */
  lemma PayloadKeepsUefiMode(action: BootOnce, current: Boot)
    ensures Overlay(current, BootPayload(action, current)).mode == Some(UEFI)
    ensures BootPayload(action, current).mode.Some? <==> current.mode != Some(UEFI)
    ensures Overlay(current, BootPayload(action, current)).enabled
            == Some(if action == EnablePxe then Once else Disabled)
  {
  }

  // ---------------------------------------------------------------------
  // Listing and preparing the systems

  /** A listed system after the options are applied to it. */
  function Prepare(m: SystemRecord, o: Options): (p: SystemRecord)
    ensures p.odataId == m.odataId + o.uriSuffix
    ensures p.etag == (if o.entityTag == "" then m.etag else o.entityTag)
    ensures p.etagMatchDisabled == o.disableEtagMatch
    ensures p.boot == m.boot && p.power == m.power
  {
    var tagged := if o.entityTag != "" then m.(etag := o.entityTag) else m;
    var matched := tagged.(etagMatchDisabled := o.disableEtagMatch);
    if o.uriSuffix != "" then matched.(odataId := matched.odataId + o.uriSuffix)
    else matched
  }

  function Prepared(ms: seq<SystemRecord>, o: Options): (ps: seq<SystemRecord>)
    ensures |ps| == |ms|
  {
    seq(|ms|, k requires 0 <= k < |ms| => Prepare(ms[k], o))
  }

  /** The systems every operation of `r` works on, as prepared. */
  function Listed(r: RedfishBMC): seq<SystemRecord>
    requires r.client.Some?
  {
    Prepared(r.client.value.service.members, r.options)
  }

  /** The body of getSystems' loop: applies the options to one system object. */
  method PrepareSystem(system: ComputerSystem, o: Options)
    modifies system
    ensures system.View() == Prepare(old(system.View()), o)
  {
    if o.entityTag != "" {
      system.SetETag(o.entityTag);
    }
    system.DisableEtagMatch(o.disableEtagMatch);
    if o.uriSuffix != "" {
      system.odataId := system.odataId + o.uriSuffix;
    }
  }

  /** getSystems: lists the systems and prepares each object in place;
      a listing error discards the list. */
  method GetSystems(r: RedfishBMC) returns (systems: seq<ComputerSystem>, err: Option<Error>)
    requires r.client.Some?
    ensures var service := r.client.value.service;
            if service.listFails then systems == [] && err == Some(GetSystemsFailed)
            else err == None && |systems| == |service.members|
                 && forall k :: 0 <= k < |systems| ==>
                      fresh(systems[k]) && systems[k].View() == Prepare(service.members[k], r.options)
  {
    var o := r.options;
    var members := r.client.value.service.members;
    var ok;
    systems, ok := ListSystems(r.client.value.service);
    var i := 0;
    while i < |systems|
      invariant 0 <= i <= |systems| == |members|
      invariant forall k :: 0 <= k < |systems| ==> fresh(systems[k])
      invariant forall a, b :: 0 <= a < b < |systems| ==> systems[a] != systems[b]
      invariant forall k :: 0 <= k < i ==> systems[k].View() == Prepare(members[k], o)
      invariant forall k :: i <= k < |systems| ==> systems[k].View() == members[k]
    {
      PrepareSystem(systems[i], o);
      i := i + 1;
    }
    if !ok {
      return [], Some(GetSystemsFailed);
    }
    err := None;
  }

  // ---------------------------------------------------------------------
  // Setting and disabling the boot-once override

  /** The error a failed SetBoot is wrapped in. */
  function SetBootFailure(action: BootOnce): (e: Error)
    ensures e == SetBootPxeFailed <==> action == EnablePxe
    ensures e == DisableBootFailed <==> action == DisableOverride
  {
    match action
    case EnablePxe => SetBootPxeFailed
    case DisableOverride => DisableBootFailed
  }

  /** The conditional header sent with a PATCH: the option without the
      quotes around it. */
  function IfNoneMatch(header: string): (h: map<string, string>)
    ensures h.Keys == {"If-None-Match"}
    ensures |h["If-None-Match"]| <= |header| && QuoteTrim.Unquoted(h["If-None-Match"])
  {
    map["If-None-Match" := QuoteTrim.Trim(header)]
  }

  /** Without an If-None-Match option: one SetBoot per system, in order. */
  function SetBootPlan(ps: seq<SystemRecord>, action: BootOnce): (plan: seq<Request>)
    ensures |plan| == |ps|
  {
    seq(|ps|, k requires 0 <= k < |ps| => SetBoot(ps[k], BootPayload(action, ps[k].boot)))
  }

  /** With an If-None-Match option: one PATCH, to the first system only. */
  function PatchPlan(ps: seq<SystemRecord>, action: BootOnce, header: string): (plan: seq<Request>)
    ensures |plan| <= 1
  {
    if ps == [] then []
    else [Patch(ps[0].odataId, BootPayload(action, ps[0].boot), IfNoneMatch(header))]
  }

  /** What the loop over the prepared systems `ps` returns and issues. */
  ghost predicate SetBootLoopOutcome(client: ApiClient, ps: seq<SystemRecord>, action: BootOnce, header: string,
                                     err: Option<Error>, sent: seq<Request>)
  {
    if header == "" then
      && SentInOrder(SetBootPlan(ps, action), client.rejects, sent, err.Some?)
      && (err.Some? ==> err == Some(SetBootFailure(action)))
    else
      && SentInOrder(PatchPlan(ps, action, header), client.rejects, sent, err == Some(PatchFailed))
      && (err != Some(PatchFailed) ==>
            err == (if sent != [] && client.closeFails then Some(CloseBodyFailed) else None))
  }

  /** What setting or disabling the override returns and issues. */
  ghost predicate SetBootOnceOutcome(r: RedfishBMC, action: BootOnce, err: Option<Error>, sent: seq<Request>)
    requires r.client.Some?
  {
    if r.client.value.service.listFails then
      err == Some(GetSystemsFailed) && sent == []
    else
      SetBootLoopOutcome(r.client.value, Listed(r), action, r.options.ifNoneMatchHeader, err, sent)
  }

  /** The loop shared by RunSetBootOncePXE and RunSetBootOnceDisable: a
      SetBoot per system, or, with an If-None-Match option, a PATCH of the
      first system followed by an immediate return. */
  method SetBootEach(client: ApiClient, systems: seq<ComputerSystem>, ghost ps: seq<SystemRecord>,
                     action: BootOnce, header: string)
    returns (err: Option<Error>, sent: seq<Request>)
    requires |systems| == |ps|
    requires forall k :: 0 <= k < |systems| ==> systems[k].View() == ps[k]
    ensures SetBootLoopOutcome(client, ps, action, header, err, sent)
  {
    err, sent := None, [];
    ghost var plan := SetBootPlan(ps, action);
    var i := 0;
    while i < |systems|
      invariant 0 <= i <= |systems|
      invariant header != "" ==> i == 0
      invariant sent == plan[..i]
      invariant forall j :: 0 <= j < i ==> j !in client.rejects
    {
      var system := systems[i];
      assert system.View() == ps[i];
      var payload := BootPayload(action, system.boot);
      var ok;
      if header == "" {
        sent, ok := Send(client, sent, SetBoot(system.View(), payload));
        assert plan[..i + 1] == plan[..i] + [plan[i]];
        if !ok {
          err := Some(SetBootFailure(action));
          return;
        }
      } else {
        sent, ok := Send(client, sent, Patch(system.odataId, payload, IfNoneMatch(header)));
        assert sent == PatchPlan(ps, action, header);
        if !ok {
          err := Some(PatchFailed);
          return;
        }
        err := if client.closeFails then Some(CloseBodyFailed) else None;
        return;
      }
      i := i + 1;
    }
    assert plan[..i] == plan;
  }

  method RunSetBootOnce(r: RedfishBMC, action: BootOnce) returns (err: Option<Error>, sent: seq<Request>)
    requires r.client.Some?
    ensures SetBootOnceOutcome(r, action, err, sent)
  {
    var systems;
    systems, err := GetSystems(r);
    sent := [];
    if err.Some? {
      return;
    }
    err, sent := SetBootEach(r.client.value, systems, Listed(r), action, r.options.ifNoneMatchHeader);
  }

  /** RunSetBootOncePXE: enables a one-time PXE boot. */
  method RunSetBootOncePXE(r: RedfishBMC) returns (err: Option<Error>, sent: seq<Request>)
    requires r.client.Some?
    ensures SetBootOnceOutcome(r, EnablePxe, err, sent)
  {
    err, sent := RunSetBootOnce(r, EnablePxe);
  }

  /** RunSetBootOnceDisable: disables the one-time boot override. */
  method RunSetBootOnceDisable(r: RedfishBMC) returns (err: Option<Error>, sent: seq<Request>)
    requires r.client.Some?
    ensures SetBootOnceOutcome(r, DisableOverride, err, sent)
  {
    err, sent := RunSetBootOnce(r, DisableOverride);
  }

  /** Without an If-None-Match option every system, in order, is sent its
      SetBoot until the first one that fails; that failure is the error
      returned and no later system is touched. */
  lemma SetBootEverySystemInOrder(r: RedfishBMC, action: BootOnce, err: Option<Error>, sent: seq<Request>)
    requires r.client.Some? && !r.client.value.service.listFails
    requires r.options.ifNoneMatchHeader == ""
    requires SetBootOnceOutcome(r, action, err, sent)
    ensures var ps := Listed(r);
            forall i :: 0 <= i < |sent| ==> sent[i] == SetBoot(ps[i], BootPayload(action, ps[i].boot))
    ensures var ps := Listed(r);
            err == None <==> forall i :: 0 <= i < |ps| ==> i !in r.client.value.rejects
    ensures err == None ==> |sent| == |r.client.value.service.members|
    ensures err != None ==> err == Some(SetBootFailure(action))
                            && |sent| == FirstRejected(|Listed(r)|, r.client.value.rejects) + 1
  {
    var plan := SetBootPlan(Listed(r), action);
    FailsIffSomeRejected(plan, r.client.value.rejects, sent, err.Some?);
    forall i | 0 <= i < |sent|
      ensures sent[i] == plan[i]
    {
      assert sent <= plan;
    }
  }

  /** With an If-None-Match option exactly one PATCH is issued, to the first
      listed system (none when there is no system), carrying the payload for
      that system and the option with the quotes around it removed. */
  lemma PatchOnlyFirstSystem(r: RedfishBMC, action: BootOnce, err: Option<Error>, sent: seq<Request>,
                             pre: string, mid: string, post: string)
    requires r.client.Some? && !r.client.value.service.listFails
    requires r.options.ifNoneMatchHeader == pre + mid + post
    requires QuoteTrim.AllQuotes(pre) && QuoteTrim.AllQuotes(post) && QuoteTrim.Unquoted(mid)
    requires r.options.ifNoneMatchHeader != ""
    requires SetBootOnceOutcome(r, action, err, sent)
    ensures var ms := r.client.value.service.members;
            |sent| == (if ms == [] then 0 else 1)
    ensures var ms := r.client.value.service.members;
            sent != [] ==>
              sent[0] == Patch(ms[0].odataId + r.options.uriSuffix, BootPayload(action, ms[0].boot),
                               map["If-None-Match" := mid])
    ensures err == Some(PatchFailed) <==> sent != [] && 0 in r.client.value.rejects
  {
    var ps := Listed(r);
    var plan := PatchPlan(ps, action, r.options.ifNoneMatchHeader);
    QuoteTrim.TrimKeepsInterior(pre, mid, post);
    FailsIffSomeRejected(plan, r.client.value.rejects, sent, err == Some(PatchFailed));
    if sent != [] {
      assert sent[0] == plan[0];
    }
  }

  // ---------------------------------------------------------------------
  // Power

  /** The resets issued to reach `target`: one of kind `kind` for every
      system not already in that state, in order. */
  function PowerPlan(ps: seq<SystemRecord>, target: PowerState, kind: ResetType): (plan: seq<Request>)
    ensures |plan| <= |ps|
    ensures forall q :: q in plan ==> q.Reset? && q.kind == kind && q.system.power != target
  {
    if ps == [] then []
    else
      var last := ps[|ps| - 1];
      PowerPlan(ps[..|ps| - 1], target, kind) + (if last.power != target then [Reset(last, kind)] else [])
  }

  lemma PowerPlanStep(ps: seq<SystemRecord>, i: nat, target: PowerState, kind: ResetType)
    requires i < |ps|
    ensures PowerPlan(ps[..i + 1], target, kind)
            == PowerPlan(ps[..i], target, kind) + (if ps[i].power != target then [Reset(ps[i], kind)] else [])
  {
    assert ps[..i + 1][..i] == ps[..i];
  }

  lemma {:induction false} PowerPlanPrefix(ps: seq<SystemRecord>, i: nat, target: PowerState, kind: ResetType)
    requires i <= |ps|
    ensures PowerPlan(ps[..i], target, kind) <= PowerPlan(ps, target, kind)
  {
    if i < |ps| {
      var init := ps[..|ps| - 1];
      assert ps[..i] == init[..i];
      PowerPlanPrefix(init, i, target, kind);
    } else {
      assert ps[..i] == ps;
    }
  }

  /** A reset that fails while the systems before `ps[i]` are handled ends
      the power loop as issuing the whole plan in order would. */
  lemma PowerStopsAtFailure(ps: seq<SystemRecord>, i: nat, target: PowerState, kind: ResetType,
                            rejects: set<nat>, sent: seq<Request>)
    requires i < |ps| && sent != []
    requires sent == PowerPlan(ps[..i + 1], target, kind)
    requires forall j :: 0 <= j < |sent| - 1 ==> j !in rejects
    requires |sent| - 1 in rejects
    ensures SentInOrder(PowerPlan(ps, target, kind), rejects, sent, true)
  {
    PowerPlanPrefix(ps, i + 1, target, kind);
  }

  /** Exactly the systems not in the target state are reset, each with
      `kind`; in particular nothing is reset when all are in that state. */
  lemma {:induction false} PowerPlanResetsExactly(ps: seq<SystemRecord>, target: PowerState, kind: ResetType)
    ensures forall q :: q in PowerPlan(ps, target, kind) ==>
              q.Reset? && q.kind == kind && q.system in ps && q.system.power != target
    ensures forall s :: s in ps && s.power != target ==> Reset(s, kind) in PowerPlan(ps, target, kind)
    ensures PowerPlan(ps, target, kind) == [] <==> forall s :: s in ps ==> s.power == target
  {
    if ps != [] {
      var init := ps[..|ps| - 1];
      PowerPlanResetsExactly(init, target, kind);
      assert ps == init + [ps[|ps| - 1]];
    }
  }

  /** What powering on or off returns and issues. */
  ghost predicate PowerOutcome(r: RedfishBMC, target: PowerState, kind: ResetType, failure: Error,
                               err: Option<Error>, sent: seq<Request>)
    requires r.client.Some?
  {
    var client := r.client.value;
    if client.service.listFails then
      err == Some(GetSystemsFailed) && sent == []
    else
      && SentInOrder(PowerPlan(Listed(r), target, kind), client.rejects, sent, err.Some?)
      && (err.Some? ==> err == Some(failure))
  }

  /** The loop shared by RunPowerOn and RunPowerOff: resets each prepared
      system not in the target state, stopping at the first failure. */
  method ResetEach(client: ApiClient, systems: seq<ComputerSystem>, ghost ps: seq<SystemRecord>,
                   target: PowerState, kind: ResetType)
    returns (failed: bool, sent: seq<Request>)
    requires |systems| == |ps|
    requires forall k :: 0 <= k < |systems| ==> systems[k].View() == ps[k]
    ensures SentInOrder(PowerPlan(ps, target, kind), client.rejects, sent, failed)
  {
    sent := [];
    var i := 0;
    while i < |systems|
      invariant 0 <= i <= |systems|
      invariant sent == PowerPlan(ps[..i], target, kind)
      invariant forall j :: 0 <= j < |sent| ==> j !in client.rejects
    {
      var system := systems[i];
      PowerPlanStep(ps, i, target, kind);
      if system.powerState != target {
        var ok;
        sent, ok := Send(client, sent, Reset(system.View(), kind));
        if !ok {
          PowerStopsAtFailure(ps, i, target, kind, client.rejects, sent);
          return true, sent;
        }
      }
      i := i + 1;
    }
    assert ps[..i] == ps;
    failed := false;
  }

  method RunPower(r: RedfishBMC, target: PowerState, kind: ResetType, failure: Error)
    returns (err: Option<Error>, sent: seq<Request>)
    requires r.client.Some?
    ensures PowerOutcome(r, target, kind, failure, err, sent)
  {
    var systems;
    systems, err := GetSystems(r);
    sent := [];
    if err.Some? {
      return;
    }
    var failed;
    failed, sent := ResetEach(r.client.value, systems, Listed(r), target, kind);
    err := if failed then Some(failure) else None;
  }

  /** RunPowerOn: resets with kind On every system that is not On. */
  method RunPowerOn(r: RedfishBMC) returns (err: Option<Error>, sent: seq<Request>)
    requires r.client.Some?
    ensures PowerOutcome(r, PowerState.On, ResetType.On, PowerOnFailed, err, sent)
  {
    err, sent := RunPower(r, PowerState.On, ResetType.On, PowerOnFailed);
  }

  /** RunPowerOff: resets with kind ForceOff every system that is not Off. */
  method RunPowerOff(r: RedfishBMC) returns (err: Option<Error>, sent: seq<Request>)
    requires r.client.Some?
    ensures PowerOutcome(r, PowerState.Off, ResetType.ForceOff, PowerOffFailed, err, sent)
  {
    err, sent := RunPower(r, PowerState.Off, ResetType.ForceOff, PowerOffFailed);
  }

  /** Powering on or off issues no request at all exactly when every listed
      system already is in the target state; otherwise every request issued
      is a reset of a system not in that state. */
  lemma PowerIdempotent(r: RedfishBMC, target: PowerState, kind: ResetType, failure: Error,
                        err: Option<Error>, sent: seq<Request>)
    requires r.client.Some? && !r.client.value.service.listFails
    requires PowerOutcome(r, target, kind, failure, err, sent)
    ensures var ms := r.client.value.service.members;
            sent == [] <==> forall i :: 0 <= i < |ms| ==> ms[i].power == target
    ensures var ms := r.client.value.service.members;
            (forall i :: 0 <= i < |ms| ==> ms[i].power == target) ==> err == None
    ensures forall q :: q in sent ==> q.Reset? && q.kind == kind && q.system.power != target
  {
    var ms := r.client.value.service.members;
    var ps := Listed(r);
    var plan := PowerPlan(ps, target, kind);
    PowerPlanResetsExactly(ps, target, kind);
    if forall i :: 0 <= i < |ms| ==> ms[i].power == target {
      forall s | s in ps
        ensures s.power == target
      {
        var i :| 0 <= i < |ps| && ps[i] == s;
      }
    } else {
      var i :| 0 <= i < |ms| && ms[i].power != target;
      assert ps[i] in ps;
      assert plan != [];
      assert sent != [];
    }
    forall q | q in sent
      ensures q in plan
    {
      var j :| 0 <= j < |sent| && sent[j] == q;
      assert plan[j] == q;
    }
  }

  // ---------------------------------------------------------------------
  // Reading state and logging out

  /** One line of RunGetBootOnce's report. */
  datatype BootReading = BootReading(enabled: Option<OverrideEnabled>, target: Option<OverrideTarget>)

  /** RunGetBootOnce: reports each system's override setting and target, in
      order; it issues no modifying request. */
  method RunGetBootOnce(r: RedfishBMC) returns (err: Option<Error>, shown: seq<BootReading>)
    requires r.client.Some?
    ensures var service := r.client.value.service;
            service.listFails ==> err == Some(GetSystemsFailed) && shown == []
    ensures var ms := r.client.value.service.members;
            !r.client.value.service.listFails ==>
              err == None && |shown| == |ms|
              && forall i :: 0 <= i < |ms| ==> shown[i] == BootReading(ms[i].boot.enabled, ms[i].boot.target)
  {
    var systems;
    systems, err := GetSystems(r);
    shown := [];
    if err.Some? {
      return;
    }
    ghost var ms := r.client.value.service.members;
    for i := 0 to |systems|
      invariant |shown| == i
      invariant forall k :: 0 <= k < i ==> shown[k] == BootReading(ms[k].boot.enabled, ms[k].boot.target)
    {
      var boot := systems[i].boot;
      shown := shown + [BootReading(boot.enabled, boot.target)];
    }
  }

  /** RunGetPower: reports each system's power state, in order; it issues no
      modifying request. */
  method RunGetPower(r: RedfishBMC) returns (err: Option<Error>, shown: seq<PowerState>)
    requires r.client.Some?
    ensures var service := r.client.value.service;
            service.listFails ==> err == Some(GetSystemsFailed) && shown == []
    ensures var ms := r.client.value.service.members;
            !r.client.value.service.listFails ==>
              err == None && |shown| == |ms| && forall i :: 0 <= i < |ms| ==> shown[i] == ms[i].power
  {
    var systems;
    systems, err := GetSystems(r);
    shown := [];
    if err.Some? {
      return;
    }
    ghost var ms := r.client.value.service.members;
    for i := 0 to |systems|
      invariant |shown| == i
      invariant forall k :: 0 <= k < i ==> shown[k] == ms[k].power
    {
      shown := shown + [systems[i].powerState];
    }
  }

  /** Logout: ends the session only when a client exists. */
  method Logout(r: RedfishBMC) returns (sent: seq<Request>)
    ensures r.client.Some? <==> sent == [SessionLogout]
    ensures r.client.None? <==> sent == []
  {
    sent := [];
    if r.client.Some? {
      sent := [SessionLogout];
    }
  }
}
