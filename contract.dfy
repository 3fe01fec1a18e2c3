/** One store of devices that the operations of contract/assembly/index.ts change
    in place. Each method is proved to leave the store exactly as the matching
    function of `Access` describes. `UpdateState` is the corrected operation, which
    writes the owner's update back to the store; the code as written never does
    (`Access.UpdateStateAsWritten`). */
module Contract {
  import opened Model
  import opened Access

  class Storage {
    /** The host's key-value storage, restricted to the device records. */
    var devices: Devices

    ghost predicate Valid()
      reads this
    {
      WellFormed(devices)
    }

    constructor ()
      ensures Valid() && devices == map[]
    {
      devices := map[];
    }

    /** `setState`: register a device under a fresh id. */
    method SetState(ownerId: string, deviceId: string, deviceType: string, timestamp: string,
                    args: map<string, I32>) returns (r: string)
      requires Valid()
      requires deviceId !in devices ==> HasPayloadKeys(deviceType, args)
      modifies this
      ensures Valid()
      ensures Step(r, devices) == Access.SetState(old(devices), ownerId, deviceId, deviceType, timestamp, args)
    {
      if deviceId in devices {
        return "Device already exists";
      }
      if deviceType == "HealthTracker" {
        devices := devices[deviceId := NewHealthTracker(ownerId, deviceId, deviceType, timestamp,
                                                        args["height"], args["weight"],
                                                        args["bodyFat"], args["muscleMass"])];
        r := "HealthTracker Registered";
      } else if deviceType == "Oximeter" {
        devices := devices[deviceId := NewOximeter(ownerId, deviceId, deviceType, timestamp,
                                                   args["bpm"], args["spo2"])];
        r := "Oximeter Registered";
      } else {
        devices := devices[deviceId := NewDevice(ownerId, deviceId, deviceType, timestamp)];
        r := "Device registered";
      }
    }

    /** `updateState`, with the loaded record written back to the store (see
        `Access.UpdateStateAsWritten` for the code as it stands). */
    method UpdateState(caller: string, deviceId: string, timestamp: string,
                       args: map<string, I32>) returns (r: string)
      requires Valid()
      requires HasUpdateKeys(devices, caller, deviceId, args)
      modifies this
      ensures Valid()
      ensures Step(r, devices) == Access.UpdateState(old(devices), caller, deviceId, timestamp, args)
      ensures deviceId in old(devices) && caller == old(devices)[deviceId].ownerId ==> r == "Updated"
    {
      if deviceId !in devices {
        return "Device not found";
      }
      var target := devices[deviceId];
      if caller != target.ownerId {
        return "Unauthorized: " + "-" + caller;
      }
      target := target.(timestamp := timestamp);
      if target.deviceType == "Oximeter" {
        if !target.Oximeter? {
          return "Type Error";
        }
        target := target.(bpm := args["bpm"], spo2 := args["spo2"]);
      } else if target.deviceType == "HealthTracker" {
        if !target.HealthTracker? {
          return "Type Error";
        }
        target := target.(height := args["height"], weight := args["weight"],
                          bodyFat := args["bodyFat"], muscleMass := args["muscleMass"]);
      }
      devices := devices[deviceId := target];
      r := "Updated";
    }

    /** `askForPermission`: the caller is added to the device's pending requests. */
    method AskForPermission(caller: string, deviceId: string)
      requires Valid()
      modifies this
      ensures Valid()
      ensures devices == Access.AskForPermission(old(devices), caller, deviceId)
    {
      if deviceId !in devices {
        return;
      }
      var target := devices[deviceId];
      devices := devices[deviceId := target.(userRequests := target.userRequests + {caller})];
    }

    /** `authenticate`: the owner grants a pending identity read access. */
    method Authenticate(caller: string, deviceId: string, accountId: string) returns (ok: bool)
      requires Valid()
      modifies this
      ensures Valid()
      ensures Step(ok, devices) == Access.Authenticate(old(devices), caller, deviceId, accountId)
    {
      if deviceId !in devices || caller != devices[deviceId].ownerId {
        return false;
      }
      var target := devices[deviceId];
      if accountId !in target.userRequests {
        return false;
      }
      target := target.(allowedUsers := target.allowedUsers + {accountId});
      target := target.(userRequests := target.userRequests - {accountId});
      devices := devices[deviceId := target];
      ok := true;
    }

    /** `deleteDevice`: removes the id, whoever asks. */
    method DeleteDevice(caller: string, deviceId: string) returns (ok: bool)
      requires Valid()
      modifies this
      ensures Valid()
      ensures Step(ok, devices) == Access.DeleteDevice(old(devices), caller, deviceId)
    {
      devices := devices - {deviceId};
      ok := true;
    }
  }
}
