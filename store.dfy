/** The PostgreSQL database the backend talks to, as an in-memory object whose tables the
    route handlers replace statement by statement. */
module Store {
  import opened Values
  import opened Tables

  class Database {
    var users: seq<UserRow>
    var devices: seq<DeviceRow>
    /** The next value of the `devices.id` sequence. */
    var nextDeviceId: int
    var deviceTypes: seq<NamedRow>
    var locations: seq<NamedRow>
    var deviceStatuses: seq<NamedRow>

    /** Primary keys are unique, and the id sequence is ahead of every device id. */
    ghost predicate Valid()
      reads this
    {
      && UniqueUserIds(users)
      && UniqueDeviceIds(devices)
      && (forall i :: 0 <= i < |devices| ==> devices[i].id < nextDeviceId)
      && UniqueRowIds(deviceTypes)
      && UniqueRowIds(locations)
      && UniqueRowIds(deviceStatuses)
    }

    constructor (users: seq<UserRow>, devices: seq<DeviceRow>, nextDeviceId: int,
                 deviceTypes: seq<NamedRow>, locations: seq<NamedRow>, deviceStatuses: seq<NamedRow>)
      requires UniqueUserIds(users) && UniqueDeviceIds(devices)
      requires forall i :: 0 <= i < |devices| ==> devices[i].id < nextDeviceId
      requires UniqueRowIds(deviceTypes) && UniqueRowIds(locations) && UniqueRowIds(deviceStatuses)
      ensures Valid()
      ensures this.users == users && this.devices == devices && this.nextDeviceId == nextDeviceId
      ensures this.deviceTypes == deviceTypes && this.locations == locations
      ensures this.deviceStatuses == deviceStatuses
    {
      this.users := users;
      this.devices := devices;
      this.nextDeviceId := nextDeviceId;
      this.deviceTypes := deviceTypes;
      this.locations := locations;
      this.deviceStatuses := deviceStatuses;
    }
  }
}
