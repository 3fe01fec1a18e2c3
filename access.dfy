/** The contract's operations (contract/assembly/index.ts) as functions of the
    device store and the caller. The host's `Context.sender` is the `caller`
    parameter and its key-value `storage` is a map from device id to device; an
    operation that writes returns a `Step`: its reply together with the new map. */
module Access {
  import opened Model

  type Devices = map<string, Device>

  datatype Option<T> = None | Some(value: T)

  datatype Step<R> = Step(reply: R, devices: Devices)

  /** What `setState` establishes for every stored device: it sits under its own id,
      and its runtime class agrees with its `deviceType`. */
  predicate Registered(id: string, d: Device) {
    && d.deviceId == id
    && (d.deviceType == "HealthTracker" <==> d.HealthTracker?)
    && (d.deviceType == "Oximeter" <==> d.Oximeter?)
  }

  predicate WellFormed(ds: Devices) {
    forall id :: id in ds ==> Registered(id, ds[id])
  }

  /** The read permission of `getState` and `validateData`: the owner or an allowed user. */
  predicate MayRead(d: Device, caller: string) {
    caller in d.allowedUsers || caller == d.ownerId
  }

  /** Only the record identified by `id` may differ; no device appears or disappears. */
  predicate OthersUnchanged(ds: Devices, ds': Devices, id: string) {
    && ds'.Keys == ds.Keys
    && forall k :: k in ds && k != id ==> ds'[k] == ds[k]
  }

  // ---------------------------------------------------------------- getState

  /** The state string `getState` answers with once the caller is authorised: the
      device is reloaded as `Oximeter` or `HealthTracker` when `deviceType` names one,
      and otherwise serialised as a plain `Device`. */
  function StateString(d: Device): (s: string)
    ensures IsStateString(s)
    ensures d.deviceType != "Oximeter" && d.deviceType != "HealthTracker" ==> s == "{}"
  {
    if d.deviceType == "Oximeter" && d.Oximeter? then OximeterArgs(d.bpm, d.spo2)
    else if d.deviceType == "HealthTracker" && d.HealthTracker? then
      HealthTrackerArgs(d.height, d.weight, d.bodyFat, d.muscleMass)
    else BaseArgs()
  }

  /** On a registered device, reloading by `deviceType` finds the runtime class. */
  lemma StateStringIsArgs(id: string, d: Device)
    requires Registered(id, d)
    ensures StateString(d) == Args(d)
  {
  }

  /** A reply that discloses a device's state: every state string starts with '{',
      and no error message does. */
  predicate Discloses(r: string) {
    |r| > 0 && r[0] == '{'
  }

  function GetState(ds: Devices, caller: string, deviceId: string): (r: string)
    ensures r == "Device not found" <==> deviceId !in ds
    ensures r == "not ownerId" <==> deviceId in ds && ds[deviceId].ownerId == ""
    ensures r == "Unauthorized" <==>
              deviceId in ds && ds[deviceId].ownerId != "" && !MayRead(ds[deviceId], caller)
    ensures Discloses(r) <==>
              deviceId in ds && ds[deviceId].ownerId != "" && MayRead(ds[deviceId], caller)
    ensures Discloses(r) ==> r == StateString(ds[deviceId])
  {
    if deviceId !in ds then "Device not found"
    else
      var d := ds[deviceId];
      if d.ownerId == "" then "not ownerId"
      else if !MayRead(d, caller) then "Unauthorized"
      else StateString(d)
  }

  // ------------------------------------------------------------ validateData

  /** `validateData` with the comparison it evidently intends: against the state
      string `getState` discloses to the same caller. */
  function ValidateData(ds: Devices, caller: string, deviceId: string, jsonArgs: string): (r: Option<string>)
    ensures r.Some? <==>
              deviceId in ds && MayRead(ds[deviceId], caller) && jsonArgs == StateString(ds[deviceId])
    ensures r.Some? ==> r.value == ds[deviceId].deviceType
  {
    if deviceId !in ds then None
    else
      var d := ds[deviceId];
      if !MayRead(d, caller) then None
      else if jsonArgs == StateString(d) then Some(d.deviceType)
      else None
  }

  /** `validateData` as written: `getArgs` is called on the `Device`-typed load, so
      the comparison is always against the plain serialisation "{}". */
  function ValidateDataAsWritten(ds: Devices, caller: string, deviceId: string, jsonArgs: string): (r: Option<string>)
    ensures r.Some? <==> deviceId in ds && MayRead(ds[deviceId], caller) && jsonArgs == "{}"
    ensures r.Some? ==> r.value == ds[deviceId].deviceType
  {
    if deviceId !in ds then None
    else
      var d := ds[deviceId];
      if !MayRead(d, caller) then None
      else if jsonArgs == BaseArgs() then Some(d.deviceType)
      else None
  }

  // ---------------------------------------------------------------- setState

  /** The keys `setState` reads from `args` for a device of type `deviceType`; a
      missing one aborts the call on the host. */
  predicate HasPayloadKeys(deviceType: string, args: map<string, I32>) {
    && (deviceType == "HealthTracker" ==>
          "height" in args && "weight" in args && "bodyFat" in args && "muscleMass" in args)
    && (deviceType == "Oximeter" ==> "bpm" in args && "spo2" in args)
  }

  function SetState(ds: Devices, ownerId: string, deviceId: string, deviceType: string,
                    timestamp: string, args: map<string, I32>): (r: Step<string>)
    requires deviceId !in ds ==> HasPayloadKeys(deviceType, args)
    ensures deviceId in ds ==> r == Step("Device already exists", ds)
    ensures deviceId !in ds ==>
              && r.devices.Keys == ds.Keys + {deviceId}
              && (forall k :: k in ds ==> r.devices[k] == ds[k])
              && Initialised(r.devices[deviceId], ownerId, deviceId, deviceType, timestamp)
              && Registered(deviceId, r.devices[deviceId])
    ensures deviceId !in ds ==>
              && (r.reply == "HealthTracker Registered" <==> deviceType == "HealthTracker")
              && (r.reply == "Oximeter Registered" <==> deviceType == "Oximeter")
              && (r.reply == "Device registered" <==>
                    deviceType != "HealthTracker" && deviceType != "Oximeter")
    ensures deviceId !in ds && deviceType == "Oximeter" ==>
              r.devices[deviceId].bpm == args["bpm"] && r.devices[deviceId].spo2 == args["spo2"]
    ensures deviceId !in ds && deviceType == "HealthTracker" ==>
              && r.devices[deviceId].height == args["height"] && r.devices[deviceId].weight == args["weight"]
              && r.devices[deviceId].bodyFat == args["bodyFat"]
              && r.devices[deviceId].muscleMass == args["muscleMass"]
    ensures WellFormed(ds) ==> WellFormed(r.devices)
  {
    if deviceId in ds then Step("Device already exists", ds)
    else if deviceType == "HealthTracker" then
      var d := NewHealthTracker(ownerId, deviceId, deviceType, timestamp,
                                args["height"], args["weight"], args["bodyFat"], args["muscleMass"]);
      Step("HealthTracker Registered", ds[deviceId := d])
    else if deviceType == "Oximeter" then
      var d := NewOximeter(ownerId, deviceId, deviceType, timestamp, args["bpm"], args["spo2"]);
      Step("Oximeter Registered", ds[deviceId := d])
    else
      Step("Device registered", ds[deviceId := NewDevice(ownerId, deviceId, deviceType, timestamp)])
  }

  // ------------------------------------------------------------- updateState

  /** The keys `updateState` reads from `args`: only when the owner updates a device
      whose reload by `deviceType` succeeds. */
  predicate HasUpdateKeys(ds: Devices, caller: string, deviceId: string, args: map<string, I32>) {
    deviceId in ds && caller == ds[deviceId].ownerId ==>
      var d := ds[deviceId];
      && (d.deviceType == "Oximeter" && d.Oximeter? ==> "bpm" in args && "spo2" in args)
      && (d.deviceType == "HealthTracker" && d.HealthTracker? ==>
            "height" in args && "weight" in args && "bodyFat" in args && "muscleMass" in args)
  }

  /** The reply of `updateState`, the same whether or not its writes persist. */
  function UpdateReply(ds: Devices, caller: string, deviceId: string): (r: string)
    ensures r == "Device not found" <==> deviceId !in ds
    ensures r == "Updated" ==> deviceId in ds && caller == ds[deviceId].ownerId
    ensures deviceId in ds && caller != ds[deviceId].ownerId ==> r == "Unauthorized: -" + caller
    ensures deviceId in ds && caller == ds[deviceId].ownerId && Registered(deviceId, ds[deviceId]) ==>
              r == "Updated"
  {
    if deviceId !in ds then "Device not found"
    else
      var d := ds[deviceId];
      if caller != d.ownerId then
        var msg := "Unauthorized: " + "-" + caller;
        assert msg[0] == 'U';
        msg
      else if d.deviceType == "Oximeter" && !d.Oximeter? then "Type Error"
      else if d.deviceType == "HealthTracker" && !d.HealthTracker? then "Type Error"
      else "Updated"
  }

  /** `updateState` with its writes persisted: the owner's update replaces the
      timestamp and the payload fields named by `deviceType`, and nothing else. */
  function UpdateState(ds: Devices, caller: string, deviceId: string, timestamp: string,
                       args: map<string, I32>): (r: Step<string>)
    requires HasUpdateKeys(ds, caller, deviceId, args)
    ensures r.reply == UpdateReply(ds, caller, deviceId)
    ensures r.reply != "Updated" ==> r.devices == ds
    ensures OthersUnchanged(ds, r.devices, deviceId)
    ensures r.reply == "Updated" ==>
              var d, d' := ds[deviceId], r.devices[deviceId];
              && d'.timestamp == timestamp
              && d'.ownerId == d.ownerId && d'.deviceId == d.deviceId && d'.deviceType == d.deviceType
              && d'.allowedUsers == d.allowedUsers && d'.userRequests == d.userRequests
              && (d'.Plain? <==> d.Plain?) && (d'.Oximeter? <==> d.Oximeter?)
              && (d.deviceType != "Oximeter" && d.deviceType != "HealthTracker" ==>
                    d' == d.(timestamp := timestamp))
              && (d.deviceType == "Oximeter" ==> d'.bpm == args["bpm"] && d'.spo2 == args["spo2"])
              && (d.deviceType == "HealthTracker" ==>
                    && d'.height == args["height"] && d'.weight == args["weight"]
                    && d'.bodyFat == args["bodyFat"] && d'.muscleMass == args["muscleMass"])
    ensures WellFormed(ds) ==> WellFormed(r.devices)
  {
    var reply := UpdateReply(ds, caller, deviceId);
    if reply != "Updated" then Step(reply, ds)
    else
      var d := ds[deviceId].(timestamp := timestamp);
      var d' :=
        if d.deviceType == "Oximeter" then d.(bpm := args["bpm"], spo2 := args["spo2"])
        else if d.deviceType == "HealthTracker" then
          d.(height := args["height"], weight := args["weight"],
             bodyFat := args["bodyFat"], muscleMass := args["muscleMass"])
        else d;
      Step(reply, ds[deviceId := d'])
  }

  /** `updateState` as written: every field write goes to a copy loaded from storage
      and nothing is stored back, so the store never changes. */
  function UpdateStateAsWritten(ds: Devices, caller: string, deviceId: string, timestamp: string,
                                args: map<string, I32>): (r: Step<string>)
    requires HasUpdateKeys(ds, caller, deviceId, args)
    ensures r.reply == UpdateReply(ds, caller, deviceId)
    ensures r.devices == ds
  {
    Step(UpdateReply(ds, caller, deviceId), ds)
  }

  // -------------------------------------------------------- askForPermission

  /** `askForPermission`: the caller joins the device's pending requests, without
      any check of who it is. */
  function AskForPermission(ds: Devices, caller: string, deviceId: string): (ds': Devices)
    ensures deviceId !in ds ==> ds' == ds
    ensures OthersUnchanged(ds, ds', deviceId)
    ensures deviceId in ds ==>
              && caller in ds'[deviceId].userRequests
              && ds'[deviceId].userRequests - {caller} == ds[deviceId].userRequests - {caller}
              && ds'[deviceId].(userRequests := ds[deviceId].userRequests) == ds[deviceId]
    ensures WellFormed(ds) ==> WellFormed(ds')
  {
    if deviceId !in ds then ds
    else
      var d := ds[deviceId];
      ds[deviceId := d.(userRequests := d.userRequests + {caller})]
  }

  // ------------------------------------------------------------ authenticate

  /** `authenticate`: the owner moves a pending identity into the allowed set. */
  function Authenticate(ds: Devices, caller: string, deviceId: string, accountId: string): (r: Step<bool>)
    ensures r.reply <==>
              deviceId in ds && caller == ds[deviceId].ownerId && accountId in ds[deviceId].userRequests
    ensures !r.reply ==> r.devices == ds
    ensures OthersUnchanged(ds, r.devices, deviceId)
    ensures r.reply ==>
              var d, d' := ds[deviceId], r.devices[deviceId];
              && accountId in d'.allowedUsers && accountId !in d'.userRequests
              && d'.allowedUsers - {accountId} == d.allowedUsers - {accountId}
              && d'.userRequests + {accountId} == d.userRequests
              && d'.(allowedUsers := d.allowedUsers, userRequests := d.userRequests) == d
    ensures WellFormed(ds) ==> WellFormed(r.devices)
  {
    if deviceId !in ds || caller != ds[deviceId].ownerId then Step(false, ds)
    else
      var d := ds[deviceId];
      if accountId !in d.userRequests then Step(false, ds)
      else
        var d' := d.(allowedUsers := d.allowedUsers + {accountId},
                     userRequests := d.userRequests - {accountId});
        Step(true, ds[deviceId := d'])
  }

  // ------------------------------------------------------------ deleteDevice

  /** `deleteDevice`: the existence and ownership checks are commented out in the
      source, so any caller removes any id and the answer is always true. */
  function DeleteDevice(ds: Devices, caller: string, deviceId: string): (r: Step<bool>)
    ensures r.reply
    ensures r.devices.Keys == ds.Keys - {deviceId}
    ensures forall k :: k in r.devices ==> r.devices[k] == ds[k]
    ensures WellFormed(ds) ==> WellFormed(r.devices)
  {
    Step(true, ds - {deviceId})
  }
}
