/** What the access rules of contract/assembly/index.ts guarantee over whole
    histories of calls: who can read, who can write, how an identity comes to be
    allowed, and the scenarios the contract's tests walk through. */
module Properties {
  import opened Decimal
  import opened Model
  import opened Access

  /** A state-changing call, as the host dispatches it. */
  datatype Call =
    | SetStateCall(ownerId: string, deviceId: string, deviceType: string, timestamp: string,
                   args: map<string, I32>)
    | UpdateStateCall(deviceId: string, timestamp: string, args: map<string, I32>)
    | AskForPermissionCall(deviceId: string)
    | AuthenticateCall(deviceId: string, accountId: string)
    | DeleteDeviceCall(deviceId: string)

  /** One transaction: the caller and what it calls. */
  datatype Tx = Tx(sender: string, call: Call)

  /** The call finds every `args` key it reads. One that does not aborts on the host,
      and the host then discards everything the call did. */
  predicate Completes(ds: Devices, tx: Tx) {
    match tx.call
    case SetStateCall(_, id, ty, _, args) => id !in ds ==> HasPayloadKeys(ty, args)
    case UpdateStateCall(id, _, args) => HasUpdateKeys(ds, tx.sender, id, args)
    case _ => true
  }

  function Apply(ds: Devices, tx: Tx): Devices {
    if !Completes(ds, tx) then ds
    else
      match tx.call
      case SetStateCall(o, id, ty, ts, args) => SetState(ds, o, id, ty, ts, args).devices
      case UpdateStateCall(id, ts, args) => UpdateState(ds, tx.sender, id, ts, args).devices
      case AskForPermissionCall(id) => AskForPermission(ds, tx.sender, id)
      case AuthenticateCall(id, a) => Authenticate(ds, tx.sender, id, a).devices
      case DeleteDeviceCall(id) => DeleteDevice(ds, tx.sender, id).devices
  }

  /** The store after running `txs` one after another from `ds`. */
  function Run(ds: Devices, txs: seq<Tx>): Devices {
    if txs == [] then ds else Apply(Run(ds, txs[..|txs| - 1]), txs[|txs| - 1])
  }

  /** Every reachable store keeps the invariant `setState` establishes. */
  lemma {:induction false} RunPreservesWellFormed(ds: Devices, txs: seq<Tx>)
    requires WellFormed(ds)
    ensures WellFormed(Run(ds, txs))
  {
    if txs != [] {
      RunPreservesWellFormed(ds, txs[..|txs| - 1]);
    }
  }

  // --------------------------------------------------------------- one step

  /** An identity joins a device's allowed users only by the owner's `authenticate`,
      and only if it was pending. */
  lemma AllowedGrowsOnlyByGrant(ds: Devices, tx: Tx, id: string, u: string)
    requires id in Apply(ds, tx) && u in Apply(ds, tx)[id].allowedUsers
    requires !(id in ds && u in ds[id].allowedUsers)
    ensures tx.call == AuthenticateCall(id, u)
    ensures id in ds && tx.sender == ds[id].ownerId && u in ds[id].userRequests
  {
  }

  /** An identity joins a device's pending requests only by asking itself. */
  lemma RequestsGrowOnlyByAsking(ds: Devices, tx: Tx, id: string, u: string)
    requires id in Apply(ds, tx) && u in Apply(ds, tx)[id].userRequests
    requires !(id in ds && u in ds[id].userRequests)
    ensures tx == Tx(u, AskForPermissionCall(id))
  {
  }

  /** In one call, whoever is not the owner changes no field of a device but its
      pending requests, and there it can only add itself. It may, however, delete
      the device outright: `deleteDevice` checks neither the owner nor the id. */
  lemma OnlyOwnerWrites(ds: Devices, tx: Tx, id: string)
    requires id in ds && tx.sender != ds[id].ownerId
    ensures id !in Apply(ds, tx) ==> tx.call == DeleteDeviceCall(id)
    ensures id in Apply(ds, tx) ==>
              Apply(ds, tx)[id].(userRequests := ds[id].userRequests) == ds[id]
    ensures id in Apply(ds, tx) && Apply(ds, tx)[id].userRequests != ds[id].userRequests ==>
              tx.call == AskForPermissionCall(id)
              && Apply(ds, tx)[id].userRequests == ds[id].userRequests + {tx.sender}
  {
  }

  /** Over two calls, anyone can replace a device: a stranger deletes the id and
      registers it again, with any owner, payload and timestamp and with the
      allowed users of the old device gone. */
  lemma DeleteThenReRegister(ds: Devices, stranger: string, id: string, ownerId: string,
                             deviceType: string, timestamp: string, args: map<string, I32>)
    requires HasPayloadKeys(deviceType, args)
    ensures var after := Run(ds, [Tx(stranger, DeleteDeviceCall(id)),
                                  Tx(stranger, SetStateCall(ownerId, id, deviceType, timestamp, args))]);
            && after == SetState(ds - {id}, ownerId, id, deviceType, timestamp, args).devices
            && id in after && after[id].ownerId == ownerId && after[id].timestamp == timestamp
            && after[id].allowedUsers == {} && after[id].userRequests == {}
  {
    var txs := [Tx(stranger, DeleteDeviceCall(id)),
                Tx(stranger, SetStateCall(ownerId, id, deviceType, timestamp, args))];
    assert txs[..1][..0] == [];
    assert Run(ds, txs[..1]) == ds - {id};
  }

  // ---------------------------------------------------------------- traces

  /** No device has granted or pending identities, as after deployment. */
  predicate NoGrants(ds: Devices) {
    forall id :: id in ds ==> ds[id].allowedUsers == {} && ds[id].userRequests == {}
  }

  /** Transaction j is the owner granting u on id while u is pending. */
  predicate GrantedAt(ds0: Devices, txs: seq<Tx>, j: nat, id: string, u: string)
    requires j < |txs|
  {
    var before := Run(ds0, txs[..j]);
    && txs[j].call == AuthenticateCall(id, u)
    && id in before && txs[j].sender == before[id].ownerId && u in before[id].userRequests
  }

  lemma PrefixOfPrefix(txs: seq<Tx>, n: nat, j: nat)
    requires j <= n <= |txs|
    ensures txs[..n][..j] == txs[..j]
  {
  }

  /** A pending identity asked for itself at some earlier point. */
  lemma {:induction false} RequestTraced(ds0: Devices, txs: seq<Tx>, id: string, u: string)
    requires NoGrants(ds0)
    requires id in Run(ds0, txs) && u in Run(ds0, txs)[id].userRequests
    ensures exists i :: 0 <= i < |txs| && txs[i] == Tx(u, AskForPermissionCall(id))
  {
    if txs != [] {
      var n := |txs| - 1;
      var mid := Run(ds0, txs[..n]);
      if id in mid && u in mid[id].userRequests {
        RequestTraced(ds0, txs[..n], id, u);
        var i :| 0 <= i < n && txs[..n][i] == Tx(u, AskForPermissionCall(id));
        assert txs[i] == Tx(u, AskForPermissionCall(id));
      } else {
        RequestsGrowOnlyByAsking(mid, txs[n], id, u);
      }
    }
  }

  /** An allowed identity was granted by the owner at some earlier point, while pending. */
  lemma {:induction false} GrantTraced(ds0: Devices, txs: seq<Tx>, id: string, u: string)
    requires NoGrants(ds0)
    requires id in Run(ds0, txs) && u in Run(ds0, txs)[id].allowedUsers
    ensures exists j :: 0 <= j < |txs| && GrantedAt(ds0, txs, j, id, u)
  {
    if txs != [] {
      var n := |txs| - 1;
      var mid := Run(ds0, txs[..n]);
      if id in mid && u in mid[id].allowedUsers {
        GrantTraced(ds0, txs[..n], id, u);
        var j :| 0 <= j < n && GrantedAt(ds0, txs[..n], j, id, u);
        PrefixOfPrefix(txs, n, j);
        assert GrantedAt(ds0, txs, j, id, u);
      } else {
        AllowedGrowsOnlyByGrant(mid, txs[n], id, u);
        assert GrantedAt(ds0, txs, n, id, u);
      }
    }
  }

  /** Unknown -> pending -> allowed: from a store without grants, every allowed
      identity first asked for access itself and was then granted by the owner. */
  lemma AccessOnlyAfterRequest(ds0: Devices, txs: seq<Tx>, id: string, u: string)
    requires NoGrants(ds0)
    requires id in Run(ds0, txs) && u in Run(ds0, txs)[id].allowedUsers
    ensures exists i, j :: 0 <= i < j < |txs| && txs[i] == Tx(u, AskForPermissionCall(id))
                          && GrantedAt(ds0, txs, j, id, u)
  {
    GrantTraced(ds0, txs, id, u);
    var j :| 0 <= j < |txs| && GrantedAt(ds0, txs, j, id, u);
    RequestTraced(ds0, txs[..j], id, u);
    var i :| 0 <= i < j && txs[..j][i] == Tx(u, AskForPermissionCall(id));
    assert txs[i] == Tx(u, AskForPermissionCall(id));
  }

  // ------------------------------------------------------ operation properties

  /** The owner reads back what it registered. */
  lemma RegisterThenRead(ds: Devices, ownerId: string, deviceId: string, deviceType: string,
                         timestamp: string, args: map<string, I32>)
    requires deviceId !in ds && ownerId != ""
    requires HasPayloadKeys(deviceType, args)
    ensures var ds' := SetState(ds, ownerId, deviceId, deviceType, timestamp, args).devices;
            GetState(ds', ownerId, deviceId)
            == if deviceType == "Oximeter" then OximeterArgs(args["bpm"], args["spo2"])
               else if deviceType == "HealthTracker" then
                 HealthTrackerArgs(args["height"], args["weight"], args["bodyFat"], args["muscleMass"])
               else "{}"
  {
  }

  /** A second registration of the same id is refused and changes nothing. */
  lemma RegisterTwice(ds: Devices, o1: string, o2: string, deviceId: string, t1: string, t2: string,
                      s1: string, s2: string, a1: map<string, I32>, a2: map<string, I32>)
    requires deviceId !in ds && HasPayloadKeys(t1, a1)
    ensures var ds' := SetState(ds, o1, deviceId, t1, s1, a1).devices;
            SetState(ds', o2, deviceId, t2, s2, a2) == Step("Device already exists", ds')
  {
  }

  /** After asking and being granted, the requester reads the device's state. */
  lemma ReadAfterGrant(ds: Devices, deviceId: string, u: string)
    requires deviceId in ds && ds[deviceId].ownerId != ""
    ensures var asked := AskForPermission(ds, u, deviceId);
            var granted := Authenticate(asked, ds[deviceId].ownerId, deviceId, u);
            && granted.reply
            && u in granted.devices[deviceId].allowedUsers
            && u !in granted.devices[deviceId].userRequests
            && GetState(granted.devices, u, deviceId) == StateString(ds[deviceId])
  {
  }

  /** A grant for an identity that never asked is refused and moves nobody. */
  lemma GrantWithoutRequest(ds: Devices, caller: string, deviceId: string, u: string)
    requires deviceId in ds ==> u !in ds[deviceId].userRequests
    ensures Authenticate(ds, caller, deviceId, u) == Step(false, ds)
  {
  }

  /** Write access is the owner's alone: an allowed user that is not the owner is
      refused by `updateState` exactly as a stranger is. */
  lemma AllowedUserCannotUpdate(ds: Devices, caller: string, deviceId: string, timestamp: string,
                                args: map<string, I32>)
    requires deviceId in ds && caller in ds[deviceId].allowedUsers && caller != ds[deviceId].ownerId
    ensures UpdateState(ds, caller, deviceId, timestamp, args) == Step("Unauthorized: -" + caller, ds)
  {
  }

  /** Deleting is idempotent, and any caller may do it: the removed device is gone
      for every later read. */
  lemma DeleteIdempotent(ds: Devices, c1: string, c2: string, deviceId: string, reader: string)
    ensures var once := DeleteDevice(ds, c1, deviceId).devices;
            && DeleteDevice(once, c2, deviceId) == Step(true, once)
            && GetState(once, reader, deviceId) == "Device not found"
  {
  }

  /** `askForPermission` does not skip identities that already have access, so an
      allowed user that asks again is both allowed and pending. */
  lemma AskAgainOverlaps(ds: Devices, deviceId: string, u: string)
    requires deviceId in ds && u in ds[deviceId].allowedUsers
    ensures var d := AskForPermission(ds, u, deviceId)[deviceId];
            u in d.allowedUsers && u in d.userRequests
  {
  }

  /** `validateData` answers for exactly the string `getState` discloses. */
  lemma ValidateMatchesGetState(ds: Devices, caller: string, deviceId: string, jsonArgs: string)
    requires deviceId in ds ==> ds[deviceId].ownerId != ""
    ensures ValidateData(ds, caller, deviceId, jsonArgs).Some? <==>
              Discloses(GetState(ds, caller, deviceId)) && jsonArgs == GetState(ds, caller, deviceId)
  {
  }

  /** A matching state string identifies the readings exactly: on an oximeter,
      `validateData` accepts a reading pair only if it is the stored one. */
  lemma ValidateOximeterExact(ds: Devices, caller: string, deviceId: string, bpm: I32, spo2: I32)
    requires deviceId in ds && Registered(deviceId, ds[deviceId]) && ds[deviceId].Oximeter?
    requires ValidateData(ds, caller, deviceId, OximeterArgs(bpm, spo2)).Some?
    ensures ds[deviceId].bpm == bpm && ds[deviceId].spo2 == spo2
  {
    OximeterArgsInjective(bpm, spo2, ds[deviceId].bpm, ds[deviceId].spo2);
  }

  /** The owner's update is what the owner reads next. */
  lemma UpdateThenRead(ds: Devices, deviceId: string, timestamp: string, args: map<string, I32>)
    requires deviceId in ds && Registered(deviceId, ds[deviceId]) && ds[deviceId].ownerId != ""
    requires HasUpdateKeys(ds, ds[deviceId].ownerId, deviceId, args)
    ensures var owner := ds[deviceId].ownerId;
            var r := UpdateState(ds, owner, deviceId, timestamp, args);
            && r.reply == "Updated"
            && GetState(r.devices, owner, deviceId)
               == match ds[deviceId]
                  case Plain(_, _, _, _, _, _) => "{}"
                  case HealthTracker(_, _, _, _, _, _, _, _, _, _) =>
                    HealthTrackerArgs(args["height"], args["weight"], args["bodyFat"], args["muscleMass"])
                  case Oximeter(_, _, _, _, _, _, _, _) => OximeterArgs(args["bpm"], args["spo2"])
  {
  }

  // ------------------------------------------------------------- scenarios

  const OwnerAlice := "alice"
  const Bob := "bob"
  const Stamp := "Thu Sep 30 2021 20:09:33 GMT-0500"

  function OximeterReadings(bpm: I32, spo2: I32): map<string, I32> {
    map["bpm" := bpm, "spo2" := spo2]
  }

  /** alice registers oximeter "ox1" at 70 bpm and 99% and reads it back; the state
      string validates, any other string does not; bob asks, alice grants, and bob
      then reads the same state. */
  lemma OximeterScenario(other: string)
    requires other != "{bpm:70,spo2:99}"
    ensures var reg := SetState(map[], OwnerAlice, "ox1", "Oximeter", Stamp, OximeterReadings(70, 99));
            && reg.reply == "Oximeter Registered"
            && GetState(reg.devices, OwnerAlice, "ox1") == "{bpm:70,spo2:99}"
            && ValidateData(reg.devices, OwnerAlice, "ox1", "{bpm:70,spo2:99}") == Some("Oximeter")
            && ValidateData(reg.devices, OwnerAlice, "ox1", other) == None
            && GetState(reg.devices, Bob, "ox1") == "Unauthorized"
            && var asked := AskForPermission(reg.devices, Bob, "ox1");
               var granted := Authenticate(asked, OwnerAlice, "ox1", Bob);
               && granted.reply
               && granted.devices["ox1"].userRequests == {}
               && GetState(granted.devices, Bob, "ox1") == "{bpm:70,spo2:99}"
  {
  }

  // -------------------------------------------------------------- findings

  function OximeterStore(bpm: I32, spo2: I32): Devices {
    map["ox1" := NewOximeter(OwnerAlice, "ox1", "Oximeter", Stamp, bpm, spo2)]
  }

  /** As written, `updateState` reports "Updated" but the owner still reads the old
      readings; with the write persisted the owner reads the new ones. */
  lemma UpdateNotPersisted()
    ensures var ds := OximeterStore(70, 99);
            var asWritten := UpdateStateAsWritten(ds, OwnerAlice, "ox1", Stamp, OximeterReadings(80, 99));
            var fixed := UpdateState(ds, OwnerAlice, "ox1", Stamp, OximeterReadings(80, 99));
            && asWritten.reply == "Updated" && fixed.reply == "Updated"
            && GetState(asWritten.devices, OwnerAlice, "ox1") == "{bpm:70,spo2:99}"
            && GetState(fixed.devices, OwnerAlice, "ox1") == OximeterArgs(80, 99)
            && OximeterArgs(80, 99) != "{bpm:70,spo2:99}"
  {
    OximeterArgsExample();
    if OximeterArgs(80, 99) == OximeterArgs(70, 99) {
      OximeterArgsInjective(80, 99, 70, 99);
    }
  }

  /** As written, `validateData` rejects the very state string `getState` hands an
      authorised caller of any oximeter or health tracker. */
  lemma ValidateAsWrittenRejectsState(ds: Devices, caller: string, deviceId: string)
    requires deviceId in ds && Registered(deviceId, ds[deviceId]) && !ds[deviceId].Plain?
    requires ds[deviceId].ownerId != "" && MayRead(ds[deviceId], caller)
    ensures ValidateDataAsWritten(ds, caller, deviceId, GetState(ds, caller, deviceId)) == None
    ensures ValidateData(ds, caller, deviceId, GetState(ds, caller, deviceId)) == Some(ds[deviceId].deviceType)
  {
  }

  /** The oximeter of the contract's test: as written the reading does not validate. */
  lemma ValidateOximeterExample()
    ensures ValidateDataAsWritten(OximeterStore(70, 99), OwnerAlice, "ox1", "{bpm:70,spo2:99}") == None
    ensures ValidateData(OximeterStore(70, 99), OwnerAlice, "ox1", "{bpm:70,spo2:99}") == Some("Oximeter")
  {
  }
}
