# bmc-tester driver model

A Dafny model of the Redfish BMC driver of bmc-tester (`bmc/bmc.go`). The
driver lists the computer systems of a baseboard management controller and
applies the command-line options to each system object: it appends the URI
suffix, sets the entity tag, and switches entity-tag matching. It then does
one of six things:

- enables a one-time PXE boot;
- disables the one-time boot override;
- reads the override;
- powers the systems on;
- powers them off;
- reads their power state.

It can also log the session out.

The Redfish client library is not modelled. What the model assumes of it is
in module `Redfish`:

- the systems a service lists, and whether listing fails, are data
  (`Service`);
- every modifying library call is recorded as a `Request` (`SetBoot`,
  `Patch`, `Reset`, `SessionLogout`) in a trace that each operation returns;
- whether a call fails is an oracle (`ApiClient.rejects`: the positions, in
  issue order, of the calls the library reports as failed;
  `ApiClient.closeFails`: whether closing a PATCH response body fails).

Modules:

- `Wrappers`: `Option`.
- `Redfish`: Redfish enumerations, the `Boot` settings record, the
  `ComputerSystem` class that the driver updates in place, the request trace,
  and stubs for listing systems and issuing a request.
- `Issuing`: `SentInOrder` says what issuing a planned list of requests in
  order produces when the caller returns at the first failure. `Sent` is a
  reference definition of the same thing, and the two are proved equivalent.
- `QuoteTrim`: Go's `strings.Trim(s, "\"")`, used on the If-None-Match value.
- `Bmc`: the driver itself.

`RedfishBMC` is a datatype because no operation changes its client or its
options. `ComputerSystem` is a class because `getSystems` rewrites the listed
objects in place. Every `Run*` operation requires a client. The Go code
dereferences the client without a check, and `main.go` stops the program
before calling a `Run*` method when no client could be created.
`RunPowerOn`/`RunPowerOff` are written in Go as two copies of one loop; here
they share `RunPower` and `ResetEach`. The same goes for
`RunSetBootOncePXE`/`RunSetBootOnceDisable`, which share `RunSetBootOnce`
and `SetBootEach`.

Behaviour of the code that the model keeps as written:

- With an If-None-Match option, only the first listed system is patched,
  because the loop returns after the first PATCH.
- `getSystems` prepares the listed objects even when listing reports an
  error, and then discards them.
- A non-empty option made only of quotes (such as `""`) sends an empty
  If-None-Match value.

## Model

| member | source | states |
|---|---|---|
| `Issuing.FirstRejected` | bmc/bmc.go:162-169 | the position of the first failing request: every earlier position succeeds and this one fails, or there is no failure among the first n |
| `Issuing.SentInOrderIff` | bmc/bmc.go:79-82 | "issue in order and return at the first failure", stated declaratively, is equivalent in both directions to the plan cut just after its first rejected request |
| `Issuing.FailsIffSomeRejected` | bmc/bmc.go:162-169 | a loop stops with an error exactly when some planned request fails; it then stops at the first failure, and otherwise it issues the whole plan |
| `QuoteTrim.SkipQuotes` | bmc/bmc.go:89 | finds the first non-quote position: everything skipped is a quote and the stop is not a quote |
| `QuoteTrim.DropQuotes` | bmc/bmc.go:89 | finds the end with the trailing quotes dropped: everything dropped is a quote and the new last character is not a quote |
| `QuoteTrim.Trim` | bmc/bmc.go:89 | the trimmed value is no longer than the input and has no quote at either end; `TrimShape` and `TrimKeepsInterior` together fix it for every input: the input minus its leading and trailing quotes |
| `QuoteTrim.TrimShape` | bmc/bmc.go:89 | the trimmed value is a slice of the input, only quotes surround it, and neither of its ends is a quote |
| `QuoteTrim.TrimKeepsInterior` | bmc/bmc.go:127 | quotes around an unquoted middle are removed and the middle, interior quotes included, is kept exactly |
| `QuoteTrim.TrimIdempotent` | bmc/bmc.go:89 | trimming twice is the same as trimming once |
| `Redfish.ComputerSystem.constructor` | bmc/bmc.go:214 | a listed system object starts with the listed state |
| `Redfish.ComputerSystem.SetETag` | bmc/bmc.go:218 | sets the entity tag and changes nothing else of the system |
| `Redfish.ComputerSystem.DisableEtagMatch` | bmc/bmc.go:221 | sets the etag-match flag and changes nothing else |
| `Redfish.ListSystems` | bmc/bmc.go:213-214 | one fresh, distinct object per listed member, in order, and whether listing failed |
| `Redfish.Send` | bmc/bmc.go:80 | a library call appends its request to the trace; it fails exactly when its position is rejected |
| `Bmc.PxeBootFor` | bmc/bmc.go:74-78 | the PXE payload always has Enabled=Once and Target=Pxe; it sets a mode, namely UEFI, exactly when the current override mode is not UEFI |
| `Bmc.DisableBootFor` | bmc/bmc.go:112-116 | the disable payload always has Enabled=Disabled; a non-UEFI system gets Mode=UEFI and no target, a UEFI system gets Target=Pxe and no mode |
| `Bmc.BootPayload` | bmc/bmc.go:74-78 | the chosen payload (PXE at lines 74-78, disable at lines 112-116) has Enabled=Once for PXE and Disabled for disable; it sets a mode, namely UEFI, exactly when the current mode is not UEFI; PXE always targets Pxe, and disable targets Pxe exactly when the system is in UEFI mode |
| `Bmc.PayloadKeepsUefiMode` | bmc/bmc.go:14-31 | read as a partial update, each of the four payloads leaves the override mode at UEFI and sets Enabled to Once or Disabled |
| `Bmc.Prepare` | bmc/bmc.go:216-227 | a prepared system's URI is the listed URI followed by the suffix, its ETag is replaced only by a non-empty entity tag, its etag-match flag equals the option, and its boot and power state are kept |
| `Bmc.Prepared` | bmc/bmc.go:216 | one prepared record per listed member |
| `Bmc.PrepareSystem` | bmc/bmc.go:217-225 | the loop body updates one system object in place to its prepared state |
| `Bmc.GetSystems` | bmc/bmc.go:212-233 | if listing fails: no systems and an error; otherwise one fresh object per member, each in its prepared state |
| `Bmc.SetBootFailure` | bmc/bmc.go:81 | a failed SetBoot yields the set-boot-to-PXE error for the PXE command and the disable error (line 119) for the disable command |
| `Bmc.IfNoneMatch` | bmc/bmc.go:88-90 | the PATCH headers hold exactly one key, If-None-Match, whose value is the option without surrounding quotes: no longer than the option, and with no quote at either end |
| `Bmc.SetBootPlan` | bmc/bmc.go:79-82 | without an If-None-Match option the plan has one SetBoot per system |
| `Bmc.PatchPlan` | bmc/bmc.go:83-97 | with an If-None-Match option the plan has at most one request |
| `Bmc.SetBootEach` | bmc/bmc.go:72-99 | the loop issues the SetBoot plan in order up to the first failure, or the single PATCH; it returns the PATCH error or the body-close error |
| `Bmc.RunSetBootOnce` | bmc/bmc.go:66-102 | a listing error is returned with no request issued; otherwise the result is that of the loop over the prepared systems |
| `Bmc.RunSetBootOncePXE` | bmc/bmc.go:66-102 | the same, with the PXE payloads and the set-boot error |
| `Bmc.RunSetBootOnceDisable` | bmc/bmc.go:104-140 | the same, with the disable payloads and the disable error |
| `Bmc.SetBootEverySystemInOrder` | bmc/bmc.go:79-82 | without If-None-Match the i-th request is SetBoot of the i-th system with its payload; there is no error exactly when no request fails, and then every system got one; on a failure, no system after the first failing one is touched |
| `Bmc.PatchOnlyFirstSystem` | bmc/bmc.go:83-97 | with If-None-Match exactly one PATCH is issued, none if there is no system; it goes to the first system's suffixed URI with that system's payload, and its header value is the option without the surrounding quotes |
| `Bmc.PowerPlan` | bmc/bmc.go:162-169 | the reset selection (also lines 180-188): at most one reset per system, and every reset is of the given kind and of a system not in the target state; `PowerPlanResetsExactly` adds that every such system is reset |
| `Bmc.PowerPlanResetsExactly` | bmc/bmc.go:162-169 | every reset is of the given kind, of a listed system not in the target state; every system not in that state is reset; nothing is reset exactly when all are in the target state |
| `Bmc.ResetEach` | bmc/bmc.go:162-169 | the loop issues the reset plan in order up to the first failure |
| `Bmc.RunPower` | bmc/bmc.go:156-172 | a listing error is returned with no request issued; otherwise the resets are issued in order and the first failing one yields the given error |
| `Bmc.RunPowerOn` | bmc/bmc.go:156-172 | the same, with reset kind On for systems that are not On |
| `Bmc.RunPowerOff` | bmc/bmc.go:174-190 | the same, with reset kind ForceOff for systems that are not Off |
| `Bmc.PowerIdempotent` | bmc/bmc.go:180-188 | powering on or off issues no request, in both directions, exactly when every system is already in the target state, and then returns no error; every request issued is a reset of a system not in the target state |
| `Bmc.RunGetBootOnce` | bmc/bmc.go:142-154 | reports each listed system's override Enabled and Target, in order, and issues no modifying request; on a listing error it returns that error |
| `Bmc.RunGetPower` | bmc/bmc.go:192-204 | reports each listed system's power state, in order, and issues no modifying request; on a listing error it returns that error |
| `Bmc.Logout` | bmc/bmc.go:206-210 | logs out exactly when a client exists |

## Left out

- `main.go`: command wiring, flag registration, required-flag checks, and
  the fatal exit when no client can be created. These belong to the command
  library and the process.
- `NewRedfishBMCClient`: connecting and authenticating with TLS verification
  off. This is network setup inside the client library. A `RedfishBMC` is
  given with its client already connected.
- `getSystemFromUri`: it is never called, and it depends on a generic
  object fetch in the client library.
- The client library calls themselves (`GetService`, `Systems`, `SetBoot`,
  `PatchWithHeaders`, `Reset`, `Logout`, `SetETag`, `DisableEtagMatch`).
  They are modelled only by the requests they record and by the oracle's
  success or failure. `SetETag` and `DisableEtagMatch` are modelled as plain
  field updates.
- How the BMC acts on a request (the If-None-Match condition of section
  13.1.2 of RFC 9110, and the Redfish Boot schema). `Overlay` is only a
  reading of the payload, used to explain the choice of payload.
- Log lines and printed output. `RunGetBootOnce` and `RunGetPower` return
  the values they print instead.
- The text of the wrapped error messages. Each message is an `Error`
  variant.
- The library error inside each wrapped error. Which library call failed is
  known from the trace.
- Redfish enumeration values outside those listed in module `Redfish`. This
  includes the target `None` and a missing or unknown power state. Only the
  comparisons with UEFI, On and Off matter to the driver.
