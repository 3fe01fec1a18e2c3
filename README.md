# ConnectIoT device registry — access-control model

A model of the NEAR smart contract that keeps a registry of owned IoT devices.
Each device has an owner, a type, a timestamp, a payload, and two identity sets:
`allowedUsers`, who may read the device, and `userRequests`, who are waiting
for the owner's decision. The contract's operations decide who may read, write,
request or grant access.

- `decimal.dfy` (`Decimal`): AssemblyScript's `i32.toString()`, its parser, and
  the proof that the rendering is injective. The width of `i32` bounds the
  rendering to eleven characters.
- `model.dfy` (`Model`): the `Device`, `HealthTracker` and `Oximeter` records of
  `contract/assembly/model.ts`. They form one tagged union with three
  constructors. The model gives each constructor and each `getArgs` state
  serialiser. It proves that each state string determines its payload.
- `access.dfy` (`Access`): every operation of `contract/assembly/index.ts` as a
  function of the store and the caller. The store is a `map` from device id to
  device. An operation that writes returns a `Step`: its reply and the new map.
- `contract.dfy` (`Contract`): the store changed in place. The class
  `Storage` holds the map, and its methods change it the way `storage.set`,
  `storage.delete` and the set mutations do. Each method is proved to produce
  exactly the reply and store of its `Access` function, and to keep the store
  invariant. `Storage.UpdateState` is the corrected `updateState`, which writes
  the owner's update back. The code as written never stores it; that version
  is `Access.UpdateStateAsWritten` (see Findings).
- `properties.dfy` (`Properties`): histories of calls. These histories use
  the corrected `updateState`. No identity becomes allowed without first asking
  and then being granted by the owner. Only the owner changes a device's
  fields. Any caller, though, may delete a device and register the id again
  with any owner and payload. This module also holds the scenarios of the contract's tests
  and the two findings below.

The host supplies two things, and the model makes both explicit. `Context.sender`
becomes a `caller` parameter. `storage` becomes the `Devices` map, or the
`Storage.devices` field.

## Model

| member | source | states |
|---|---|---|
| `Decimal.IntToDec` | contract/assembly/model.ts:56-58 | `toString()` of an integer is non-empty and made only of digits and '-'; it starts with '-' exactly when the value is negative |
| `Decimal.DecRoundTrip` | contract/assembly/model.ts:56-58 | parsing the rendering of any integer gives the integer back |
| `Decimal.DecInjective` | contract/assembly/model.ts:56-58 | two integers with the same rendering are equal |
| `Decimal.I32DecLength` | contract/assembly/model.ts:31-34 | any 32-bit signed value renders in at most 11 characters |
| `Decimal.MinI32Dec` | contract/assembly/model.ts:64-65 | the smallest i32 renders as "-2147483648" |
| `Model.NewDevice` | contract/assembly/model.ts:12-26 | the constructor stores owner, id, type and timestamp as given; both sets start empty; the device serialises to "{}" |
| `Model.NewHealthTracker` | contract/assembly/model.ts:36-53 | the common fields as given, empty sets, and the four measurements stored unchanged |
| `Model.NewOximeter` | contract/assembly/model.ts:67-80 | the common fields as given, empty sets, and bpm and spo2 stored unchanged |
| `Model.BaseArgs` | contract/assembly/model.ts:24-26 | `Device.getArgs` is the two-character state string "{}" |
| `Model.HealthTrackerArgs` | contract/assembly/model.ts:55-59 | `HealthTracker.getArgs` is a braced, blank-free state string longer than "{}" |
| `Model.OximeterArgs` | contract/assembly/model.ts:82-84 | `Oximeter.getArgs` is a braced, blank-free state string longer than "{}" |
| `Model.Args` | contract/assembly/model.ts:24-84 | `getArgs` dispatched on the runtime class gives a state string; it is "{}" exactly for a plain device |
| `Model.OximeterArgsInjective` | contract/assembly/model.ts:82-84 | the Oximeter state string determines bpm and spo2 |
| `Model.HealthTrackerArgsInjective` | contract/assembly/model.ts:55-59 | the HealthTracker state string determines height, weight, bodyFat and muscleMass, in that order |
| `Model.OximeterArgsFlat` | contract/assembly/model.ts:82-84 | the Oximeter state string is "{bpm:" + bpm + ",spo2:" + spo2 + "}" |
| `Model.OximeterArgsExample` | contract/assembly/__tests__/main.spec.ts:63 | bpm 70 and spo2 99 serialise to "{bpm:70,spo2:99}" |
| `Model.HealthTrackerArgsFlat` | contract/assembly/model.ts:55-59 | the HealthTracker state string is "{height:" + height + ",weight:" + weight + ",bodyFat:" + bodyFat + ",muscleMass:" + muscleMass + "}" |
| `Model.HealthTrackerArgsExample` | contract/assembly/model.ts:55-59 | 170, 72, -3, 41 serialise to "{height:170,weight:72,bodyFat:-3,muscleMass:41}" |
| `Access.StateString` | contract/assembly/index.ts:50-61 | the string `getState` discloses is a state string; "{}" unless `deviceType` names a variant |
| `Access.StateStringIsArgs` | contract/assembly/index.ts:50-61 | on a registered device, reloading by `deviceType` gives the `getArgs` of its runtime class |
| `Access.GetState` | contract/assembly/index.ts:28-62 | "Device not found" iff absent; "not ownerId" iff the owner is empty; "Unauthorized" iff the caller is neither owner nor allowed; the state is disclosed iff the device exists, has an owner and the caller is owner or allowed |
| `Access.ValidateData` | contract/assembly/index.ts:7-23 | corrected: answers the device type iff the device exists, the caller is owner or allowed, and the string equals the disclosed state; otherwise null |
| `Access.ValidateDataAsWritten` | contract/assembly/index.ts:7-23 | as written: answers the device type iff the device exists, the caller is owner or allowed, and the string is "{}" |
| `Access.SetState` | contract/assembly/index.ts:67-106 | an existing id gives "Device already exists" and no change; otherwise exactly that id is added, initialised as given, registered, with the reply and variant chosen by the type string and the payload taken from `args` |
| `Access.UpdateReply` | contract/assembly/index.ts:115-145 | "Device not found" iff absent; "Unauthorized: -" + caller for any non-owner; "Updated" only for the owner, and always for the owner of a device whose class matches its type |
| `Access.UpdateState` | contract/assembly/index.ts:111-146 | corrected: on anything but "Updated" the store is unchanged; the owner's update replaces only the timestamp and the payload fields of its type; no other device changes |
| `Access.UpdateStateAsWritten` | contract/assembly/index.ts:126-145 | as written: same reply, store never changes |
| `Access.AskForPermission` | contract/assembly/index.ts:151-164 | absent id: no change; otherwise the caller is pending afterwards, the other pending identities, every other field and every other device are unchanged |
| `Access.Authenticate` | contract/assembly/index.ts:169-184 | true iff the device exists, the caller is the owner and the account is pending; false leaves the store unchanged; true moves exactly that account from pending to allowed |
| `Access.DeleteDevice` | contract/assembly/index.ts:189-204 | always true, for any caller; afterwards exactly that id is gone and every other device is unchanged |
| `Contract.Storage.SetState` | contract/assembly/index.ts:67-106 | in place: reply and new store are those of `Access.SetState`; the store invariant is kept |
| `Contract.Storage.UpdateState` | contract/assembly/index.ts:111-146 | in place, corrected to persist the write: reply and new store are those of `Access.UpdateState`; on a valid store the owner's update always answers "Updated", so the "Type Error" replies are unreachable |
| `Contract.Storage.AskForPermission` | contract/assembly/index.ts:151-164 | in place: the new store is that of `Access.AskForPermission` |
| `Contract.Storage.Authenticate` | contract/assembly/index.ts:169-184 | in place: reply and new store are those of `Access.Authenticate` |
| `Contract.Storage.DeleteDevice` | contract/assembly/index.ts:189-204 | in place: reply and new store are those of `Access.DeleteDevice` |
| `Properties.RunPreservesWellFormed` | contract/assembly/index.ts:67-106 | after any history of calls every device is stored under its own id and its class matches its `deviceType` |
| `Properties.AllowedGrowsOnlyByGrant` | contract/assembly/index.ts:177-183 | an identity becomes allowed only through the owner's `authenticate` of that identity while it is pending |
| `Properties.RequestsGrowOnlyByAsking` | contract/assembly/index.ts:158-163 | an identity becomes pending only by calling `askForPermission` itself |
| `Properties.OnlyOwnerWrites` | contract/assembly/index.ts:118-124 | a non-owner's call either deletes the device (only `deleteDevice` can) or changes none of its fields except adding the caller to its pending set |
| `Properties.DeleteThenReRegister` | contract/assembly/index.ts:189-204 | any caller can delete an id and then register it again through `setState` with any owner, timestamp and payload; the old allowed users are gone |
| `Properties.RequestTraced` | contract/assembly/index.ts:151-164 | from a store with no grants, a pending identity asked for itself earlier in the history |
| `Properties.GrantTraced` | contract/assembly/index.ts:169-184 | from a store with no grants, an allowed identity was granted earlier by the then owner while pending |
| `Properties.AccessOnlyAfterRequest` | contract/assembly/index.ts:151-184 | every allowed identity first asked for itself, then was granted by the owner |
| `Properties.RegisterThenRead` | contract/assembly/index.ts:28-106 | right after registering, the owner reads the variant's state string built from `args`, or "{}" for other types |
| `Properties.RegisterTwice` | contract/assembly/index.ts:73-76 | a second registration of an id is refused and changes nothing |
| `Properties.ReadAfterGrant` | contract/assembly/index.ts:163-183 | after asking and being granted, the requester is allowed, not pending, and reads the state |
| `Properties.GrantWithoutRequest` | contract/assembly/index.ts:177-179 | granting an identity that is not pending returns false and changes nothing |
| `Properties.AllowedUserCannotUpdate` | contract/assembly/index.ts:122-124 | an allowed non-owner is refused by `updateState` and the store is unchanged |
| `Properties.DeleteIdempotent` | contract/assembly/index.ts:189-204 | deleting twice equals deleting once, by any caller; afterwards reads answer "Device not found" |
| `Properties.AskAgainOverlaps` | contract/assembly/index.ts:158-163 | an allowed identity that asks again is both allowed and pending |
| `Properties.ValidateMatchesGetState` | contract/assembly/index.ts:7-62 | corrected `validateData` answers exactly for the state string `getState` discloses to the same caller |
| `Properties.ValidateOximeterExact` | contract/assembly/index.ts:22 | on an oximeter, a validated reading pair is the stored one |
| `Properties.UpdateThenRead` | contract/assembly/index.ts:126-145 | after the owner's update the owner reads the state built from the new `args` |
| `Properties.OximeterScenario` | contract/assembly/__tests__/main.spec.ts:42-128 | register ox1 (70, 99), read "{bpm:70,spo2:99}", validate it, a stranger is refused, bob asks, alice grants, bob reads |
| `Properties.UpdateNotPersisted` | contract/assembly/index.ts:126-145 | as written, the owner's update answers "Updated" but the owner still reads the old readings |
| `Properties.ValidateAsWrittenRejectsState` | contract/assembly/index.ts:9-22 | as written, `validateData` rejects the state string `getState` gives for any oximeter or health tracker; the corrected one accepts it |
| `Properties.ValidateOximeterExample` | contract/assembly/__tests__/main.spec.ts:111-116 | for the test's oximeter, as written the reading does not validate; the corrected one answers "Oximeter" |

## Findings

| source | as written | input that shows it | evidently intended | confidence | as-written member | corrected member |
|---|---|---|---|---|---|---|
| contract/assembly/index.ts:126-145 | `updateState` writes the timestamp and the readings to copies returned by `storage.get` and never calls `storage.set`, so nothing persists | Oximeter "ox1" owned by alice at bpm 70, spo2 99; alice calls `updateState("ox1", t, {bpm: 80, spo2: 99})`: the reply is "Updated", yet `getState` still gives "{bpm:70,spo2:99}" | the owner's update is stored (the contract's test expects bpm 80 afterwards, contract/assembly/__tests__/main.spec.ts:105) | not executed; rests on `storage.get` returning a deserialised copy | `Access.UpdateStateAsWritten`, `Properties.UpdateNotPersisted` | `Access.UpdateState`, `Properties.UpdateThenRead` |
| contract/assembly/index.ts:9-22 | `validateData` loads the record as `Device` and calls `getArgs` on it, so it compares against "{}" | the same oximeter; alice calls `validateData("ox1", "{bpm:70,spo2:99}")`: null | the device type "Oximeter" (the contract's test, contract/assembly/__tests__/main.spec.ts:114-115; `getState` reloads by type for this reason, contract/assembly/index.ts:50-60) | not executed; rests on the host deserialising into the declared class | `Access.ValidateDataAsWritten`, `Properties.ValidateOximeterExample` | `Access.ValidateData`, `Properties.ValidateMatchesGetState` |

## Design and code

The system's design description differs from the code in several places. The
model follows the code in each case:

- The design keeps one registry per device type and passes the type with every
  call. The code keeps one store keyed by id, and its operations take no type.
- The design has a list-requests operation. The code has none.
- The design has `deleteDevice` refuse non-owners and absent ids. The code has
  those checks commented out and always answers true
  (`Access.DeleteDevice`, `Properties.DeleteIdempotent`). Together with
  `setState`, which takes the owner as an argument, this lets any caller
  replace any device (`Properties.DeleteThenReRegister`).
- The design has `askForPermission` do nothing for an identity that already has
  access. The code adds it anyway, so the allowed and pending sets need not stay
  disjoint (`Properties.AskAgainOverlaps`).
- The design says the owner id is never empty. The code accepts any owner in
  `setState`, and `getState` answers "not ownerId" for an empty one.

## Left out

- Host plumbing. `Context.sender` is the `caller` parameter and `storage` is a
  `map`. The `logging.log` call in `askForPermission` is observability only and
  is dropped. The JSON framing `@nearBindgen` gives stored records is not
  modelled.
- `PersistentSet` aliasing. Both identity sets are built with the constant
  prefixes "a" and "r", so on the host every device shares the same two sets.
  The model keeps them per device, as the class declares them.
- Reloading a record as a different class. `storage.get<Oximeter>` or
  `storage.get<HealthTracker>` on a record saved as another class depends on
  the host's deserialiser. In the model a reload succeeds exactly when the
  runtime class matches. The store invariant (`Access.WellFormed`) makes the
  "Type Error" replies of `updateState` unreachable. They are kept as
  defensive cases.
- The "not alllowed users" reply of `getState` (contract/assembly/index.ts:36-38).
  The sets always exist in the model, so that branch cannot be taken.
- Missing `args` keys. `Map.get` aborts on a missing key. The operations require
  the keys they read (`Access.HasPayloadKeys`, `Access.HasUpdateKeys`). In the
  histories of `Properties`, a call missing a key counts as aborted, and the
  host then discards its effects.
- Null replies. `setState`, `getState` and `updateState` are declared to return
  `string | null` but always return a string, so the model returns `string`.
- The contract's test file targets another draft of the API. It uses
  two-argument `getState`, `getRequests` and per-type registries, none of which
  exist in the code. It is used only where it agrees with the code.
