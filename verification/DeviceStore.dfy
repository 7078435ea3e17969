/** Device authorizations as both stores keep them: lookups by code and conditional
    status changes, each one atomic. */
module DeviceStore {
  import opened Text
  import opened CoreModel

  type Id = string

  datatype Status = Pending | Approved | Consumed | Expired

  datatype Device = Device(id: Id, repositoryId: Id, approvedUserId: Id, status: Status,
                           createdAt: int, expiresAt: int, approvedAt: int, consumedAt: int)

  datatype Store = Store(devices: map<Id, Device>, byDeviceCode: map<string, Id>, byUserCode: map<string, Id>)

  const EMPTY := Store(map[], map[], map[])

  function AsciiUpperChar(c: char): char {
    if 'a' <= c <= 'z' then (c as int - 32) as char else c
  }

  function AsciiUpper(s: string): string {
    if s == [] then [] else [AsciiUpperChar(s[0])] + AsciiUpper(s[1..])
  }

  /** The key of a code: hashing is injective, so the hashed text stands for the hash. */
  function HashCode(code: string): string {
    AsciiUpper(Trim(code))
  }

  lemma SameLetters(c: char, d: char)
    ensures AsciiUpperChar(c) == AsciiUpperChar(d) <==> AsciiLowerChar(c) == AsciiLowerChar(d)
  {
  }

  lemma {:induction false} UpperMatchesLower(a: string, b: string)
    ensures AsciiUpper(a) == AsciiUpper(b) <==> AsciiLower(a) == AsciiLower(b)
  {
    if a != [] && b != [] {
      UpperMatchesLower(a[1..], b[1..]);
      SameLetters(a[0], b[0]);
      hide AsciiUpperChar, AsciiLowerChar;
      HeadAndTail(AsciiUpperChar(a[0]), AsciiUpper(a[1..]), AsciiUpperChar(b[0]), AsciiUpper(b[1..]));
      HeadAndTail(AsciiLowerChar(a[0]), AsciiLower(a[1..]), AsciiLowerChar(b[0]), AsciiLower(b[1..]));
    }
  }

  lemma HeadAndTail(c: char, s: string, d: char, t: string)
    ensures [c] + s == [d] + t <==> c == d && s == t
  {
    assert ([c] + s)[0] == c && ([c] + s)[1..] == s;
    assert ([d] + t)[0] == d && ([d] + t)[1..] == t;
  }

  /** Two codes have one key exactly when they are the same, surrounding white space and the case of
      letters aside. */
  lemma CodesMatchExactly(a: string, b: string)
    ensures HashCode(a) == HashCode(b) <==> AsciiLower(Trim(a)) == AsciiLower(Trim(b))
  {
    UpperMatchesLower(Trim(a), Trim(b));
  }

  const REQUIRED := InvalidArgument("device_code, user_code, and requested_repository_id are required")

  // ---- the specification ---------------------------------------------------------------

  function NewDevice(id: Id, repositoryId: Id, now: int, ttl: int): Device {
    Device(id, repositoryId, "", Pending, now, now + ttl, 0, 0)
  }

  function Create(s: Store, id: Id, deviceCode: string, userCode: string, repositoryId: Id, now: int, ttl: int)
      : (Store, Result<Device>)
  {
    if Trim(deviceCode) == "" || Trim(userCode) == "" || Trim(repositoryId) == "" then (s, Err(REQUIRED))
    else
      var device := NewDevice(id, repositoryId, now, ttl);
      (Store(s.devices[id := device], s.byDeviceCode[HashCode(deviceCode) := id],
             s.byUserCode[HashCode(userCode) := id]),
       Ok(device))
  }

  function Lookup(s: Store, index: map<string, Id>, code: string): Result<Device> {
    if HashCode(code) in index && index[HashCode(code)] in s.devices then Ok(s.devices[index[HashCode(code)]])
    else Err(NotFound)
  }

  function Approve(s: Store, id: Id, userId: Id, now: int): (Store, Result<()>) {
    if id in s.devices && s.devices[id].status == Pending && s.devices[id].expiresAt > now
    then
      var approved := s.devices[id].(status := Approved, approvedUserId := userId, approvedAt := now);
      (s.(devices := s.devices[id := approved]), Ok(()))
    else (s, Err(NotFound))
  }

  function Consume(s: Store, id: Id, now: int): (Store, Result<()>) {
    if id in s.devices && s.devices[id].status == Approved
    then (s.(devices := s.devices[id := s.devices[id].(status := Consumed, consumedAt := now)]), Ok(()))
    else (s, Err(NotFound))
  }

  function Expire(s: Store, id: Id): Store {
    if id in s.devices && s.devices[id].status == Pending
    then s.(devices := s.devices[id := s.devices[id].(status := Expired)])
    else s
  }

  predicate SameRequest(a: Device, b: Device) {
    a.id == b.id && a.repositoryId == b.repositoryId && a.createdAt == b.createdAt && a.expiresAt == b.expiresAt
  }

  /** One device may have moved, with its request kept; the rest are untouched. */
  predicate OnlyMoves(before: map<Id, Device>, after: map<Id, Device>, id: Id) {
    && before.Keys == after.Keys
    && forall x :: x in before ==> if x == id then SameRequest(before[x], after[x]) else before[x] == after[x]
  }

  // ---- the store, updated in place --------------------------------------------------------

  class DeviceTable {
    var devices: map<Id, Device>
    var byDeviceCode: map<string, Id>
    var byUserCode: map<string, Id>

    ghost function Contents(): Store
      reads this
    {
      Store(devices, byDeviceCode, byUserCode)
    }

    constructor ()
      ensures Contents() == EMPTY
    {
      devices, byDeviceCode, byUserCode := map[], map[], map[];
    }

    method CreateDeviceAuthorization(id: Id, deviceCode: string, userCode: string, repositoryId: Id, now: int, ttl: int)
        returns (r: Result<Device>)
      modifies this
      ensures (Contents(), r) == Create(old(Contents()), id, deviceCode, userCode, repositoryId, now, ttl)
    {
      if Trim(deviceCode) == "" || Trim(userCode) == "" || Trim(repositoryId) == "" {
        return Err(REQUIRED);
      }
      var device := NewDevice(id, repositoryId, now, ttl);
      byDeviceCode := byDeviceCode[HashCode(deviceCode) := device.id];
      byUserCode := byUserCode[HashCode(userCode) := device.id];
      devices := devices[device.id := device];
      return Ok(device);
    }

    method DeviceByUserCode(userCode: string) returns (r: Result<Device>)
      ensures r == Lookup(Contents(), byUserCode, userCode)
    {
      if HashCode(userCode) !in byUserCode {
        return Err(NotFound);
      }
      var id := byUserCode[HashCode(userCode)];
      return if id in devices then Ok(devices[id]) else Err(NotFound);
    }

    method DeviceByDeviceCode(deviceCode: string) returns (r: Result<Device>)
      ensures r == Lookup(Contents(), byDeviceCode, deviceCode)
    {
      if HashCode(deviceCode) !in byDeviceCode {
        return Err(NotFound);
      }
      var id := byDeviceCode[HashCode(deviceCode)];
      return if id in devices then Ok(devices[id]) else Err(NotFound);
    }

    method ApproveDeviceAuthorization(id: Id, userId: Id, now: int) returns (r: Result<()>)
      modifies this`devices
      ensures (Contents(), r) == Approve(old(Contents()), id, userId, now)
      ensures OnlyMoves(old(devices), devices, id) && (r.Err? ==> devices == old(devices))
      ensures r.Ok? ==> old(devices)[id].status == Pending && now < devices[id].expiresAt
                        && devices[id].status == Approved && devices[id].approvedUserId == userId
                        && devices[id].approvedAt == now
    {
      if id !in devices {
        return Err(NotFound);
      }
      var device := devices[id];
      if device.status != Pending || device.expiresAt <= now {
        return Err(NotFound);
      }
      device := device.(status := Approved);
      device := device.(approvedUserId := userId);
      device := device.(approvedAt := now);
      devices := devices[id := device];
      return Ok(());
    }

    method ConsumeDeviceAuthorization(id: Id, now: int) returns (r: Result<()>)
      modifies this`devices
      ensures (Contents(), r) == Consume(old(Contents()), id, now)
      ensures OnlyMoves(old(devices), devices, id) && (r.Err? ==> devices == old(devices))
      ensures r.Ok? ==> old(devices)[id].status == Approved && devices[id].status == Consumed
                        && devices[id].approvedUserId == old(devices)[id].approvedUserId
                        && devices[id].approvedAt == old(devices)[id].approvedAt && devices[id].consumedAt == now
    {
      if id !in devices || devices[id].status != Approved {
        return Err(NotFound);
      }
      devices := devices[id := devices[id].(status := Consumed, consumedAt := now)];
      return Ok(());
    }

    method ExpireDeviceAuthorization(id: Id)
      modifies this`devices
      ensures Contents() == Expire(old(Contents()), id)
      ensures OnlyMoves(old(devices), devices, id) && (id in devices ==> devices[id].status != Pending)
      ensures id in devices && old(devices)[id].status != Pending ==> devices == old(devices)
    {
      if id in devices && devices[id].status == Pending {
        devices := devices[id := devices[id].(status := Expired)];
      }
    }
  }
}
