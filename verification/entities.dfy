/**
 * The five entity services, each an instance of the record gateway:
 * employee, department, location, event and user.
 */
module Entities {
  import opened JsValue
  import opened RecordGateway

  /** Fields every table exposes. */
  const CommonFields: seq<string> :=
    ["Id", "Name", "Tags", "Owner", "CreatedOn", "CreatedBy", "ModifiedOn", "ModifiedBy"]

  const Employee: Entity := Entity(
    "employee", "employee",
    ["Name", "Tags", "Owner", "email", "phone", "designation", "status", "joinDate", "avatar",
     "department", "location"],
    CommonFields + ["email", "phone", "designation", "status", "joinDate", "avatar", "department", "location"])

  const Department: Entity := Entity("department", "department", ["Name", "Tags", "Owner"], CommonFields)

  const Location: Entity := Entity("location", "location", ["Name", "Tags", "Owner"], CommonFields)

  const Event: Entity := Entity(
    "event", "event",
    ["Name", "Tags", "Owner", "title", "date", "type"],
    CommonFields + ["title", "date", "type"])

  /** The user service talks to table `User1` but says "user" in its messages. */
  const User: Entity := Entity(
    "User1", "user",
    ["Name", "Tags", "Owner", "email", "role", "darkModeEnabled"],
    CommonFields + ["email", "role", "darkModeEnabled"])

  /** Every call of the user service goes to table `User1`. */
  lemma UserTable(id: Value, data: Record, filters: seq<Entry>)
    ensures FetchRequest(User, filters).table == "User1"
    ensures CreateRequest(User, data).table == "User1"
    ensures UpdateRequest(User, id, data).table == "User1"
    ensures DeleteRequest(User, id).table == "User1"
  {
  }

  /** The employee allow-list excludes system fields and is covered by its fetch list. */
  lemma EmployeeWellFormed()
    ensures WellFormed(Employee)
  {
  }

  lemma DepartmentWellFormed()
    ensures WellFormed(Department)
  {
  }

  lemma LocationWellFormed()
    ensures WellFormed(Location)
  {
  }

  lemma EventWellFormed()
    ensures WellFormed(Event)
  {
  }

  lemma UserWellFormed()
    ensures WellFormed(User)
  {
  }

  lemma DepartmentAllowList()
    ensures AllowSet(Department) == {"Name", "Tags", "Owner"}
  {
  }

  lemma LocationAllowList()
    ensures AllowSet(Location) == {"Name", "Tags", "Owner"}
  {
  }

  lemma EventAllowList()
    ensures AllowSet(Event) == {"Name", "Tags", "Owner", "title", "date", "type"}
  {
  }

  /** A department create payload keeps at most `Name`, `Tags` and `Owner`, values unchanged. */
  lemma DepartmentCreatePayload(data: Record)
    ensures CreateRequest(Department, data).records[0].Keys <= {"Name", "Tags", "Owner"}
    ensures |CreateRequest(Department, data).records[0]| <= 3
    ensures forall k :: k in CreateRequest(Department, data).records[0] ==>
      CreateRequest(Department, data).records[0][k] == data[k]
  {
    DepartmentAllowList();
    WritableSize(Department, data);
  }

  /** A location create payload keeps at most `Name`, `Tags` and `Owner` and never `Id`. */
  lemma LocationCreatePayload(data: Record)
    ensures CreateRequest(Location, data).records[0].Keys <= {"Name", "Tags", "Owner"}
    ensures "Id" !in CreateRequest(Location, data).records[0]
    ensures Writable(Location, CreateRequest(Location, data).records[0]) == CreateRequest(Location, data).records[0]
  {
    LocationAllowList();
    WritableIdempotent(Location, data);
  }

  /** An event create payload keeps only the six event fields, all of which the fetch requests. */
  lemma EventCreatePayload(data: Record, filters: seq<Entry>)
    ensures CreateRequest(Event, data).records[0].Keys <= {"Name", "Tags", "Owner", "title", "date", "type"}
    ensures forall k :: k in CreateRequest(Event, data).records[0] ==> k in FetchRequest(Event, filters).fields
  {
    EventAllowList();
    EventWellFormed();
  }

  /** No system field given to the user service reaches a create or update payload, except the injected `Id`. */
  lemma UserPayloadsDropSystemFields(id: Value, data: Record)
    ensures CreateRequest(User, data).records[0].Keys !! SystemFields
    ensures UpdateRequest(User, id, data).records[0].Keys * SystemFields == {"Id"}
    ensures UpdateRequest(User, id, data).records[0]["Id"] == id
  {
    UserWellFormed();
    PayloadsExcludeSystemFields(User, id, data);
  }

  /** An employee create payload has no system field; an update payload's only one is `Id`, the argument. */
  lemma EmployeePayloads(id: Value, data: Record)
    ensures CreateRequest(Employee, data).records[0].Keys !! SystemFields
    ensures UpdateRequest(Employee, id, data).records[0].Keys * SystemFields == {"Id"}
    ensures UpdateRequest(Employee, id, data).records[0] - {"Id"} == CreateRequest(Employee, data).records[0]
  {
    EmployeeWellFormed();
    PayloadsExcludeSystemFields(Employee, id, data);
    UpdateIsCreatePlusId(Employee, id, data);
  }

  /** The default messages of the services, one per entity and operation shown. */
  lemma EmployeeCreateMessage()
    ensures DefaultMessage(Employee, Create) == "Failed to create employee"
  {
  }

  lemma EmployeeDeleteMessage()
    ensures DefaultMessage(Employee, Delete) == "Failed to delete employee"
  {
  }

  lemma DepartmentUpdateMessage()
    ensures DefaultMessage(Department, Update) == "Failed to update department"
  {
  }

  lemma LocationDeleteMessage()
    ensures DefaultMessage(Location, Delete) == "Failed to delete location"
  {
  }

  lemma EventCreateMessage()
    ensures DefaultMessage(Event, Create) == "Failed to create event"
  {
  }

  lemma UserUpdateMessage()
    ensures DefaultMessage(User, Update) == "Failed to update user"
  {
  }
}
