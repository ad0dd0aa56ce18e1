/** The records the front end receives from the API and keeps in component state. */
module Entities {

  datatype Option<T> = None | Some(value: T)

  /** A broker or segment reference as embedded in a member (`{ _id, name, code }`). */
  datatype Ref = Ref(id: string, name: string, code: string)

  /** The part of `memberDetails` that the list rules read. */
  datatype Details = Details(specialization: string)

  /** A team member as returned by the API; `memberDetails` may be missing. */
  datatype Member = Member(
    id: string,
    firstName: string,
    lastName: string,
    email: string,
    broker: Ref,
    segments: seq<Ref>,
    memberDetails: Option<Details>)

  /** The filter criteria; the empty string means "no criterion". */
  datatype Filters = Filters(broker: string, segment: string, specialization: string)

  /** The criteria with every field empty: the initial and the cleared value. */
  const NoFilters: Filters := Filters("", "", "")

  /** The signed-in user as the session store hands it out. */
  datatype User = User(
    firstName: string,
    lastName: string,
    email: string,
    role: string,
    employeeId: string,
    isPasswordChanged: bool)
}
