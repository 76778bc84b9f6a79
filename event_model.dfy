/** The `Event` schema: what an organiser publishes, with its price and registration deadline. */
module EventModel {
  import opened Common

  /**
   * A stored event. `title`, `description`, `date`, `venue`, `price`,
   * `registrationDeadline` and `createdBy` are required; `status` is a string path with
   * `enum: ["active", "archived"]`, default `active`.
   */
  datatype Event = Event(
    id: Id,
    title: string,
    description: string,
    date: Time,
    venue: string,
    price: int,
    registrationDeadline: Time,
    images: seq<string>,
    status: string,
    createdBy: Id,
    createdAt: Time)

  /** The validators that run when an event is saved. */
  predicate EventAdmitted(e: Event)
  {
    e.title != "" && e.description != "" && e.venue != "" &&
    (e.status == "active" || e.status == "archived")
  }
}
