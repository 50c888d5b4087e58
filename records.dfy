/** The records the store keeps, one ordered collection per kind
    (src/utils/mockData.ts, the interfaces at the top of the file). */
module Records {
  import opened Wrappers

  datatype PCStatus = Libre | Ocupada | Mantenimiento

  datatype PC = PC(id: string, number: int, status: PCStatus, location: string, specs: string)

  datatype ReservationStatus = Activa | Completada | Cancelada

  /** `userId` is `user?.id` at the time of booking, so it may be absent. */
  datatype Reservation = Reservation(
    id: string, userId: Option<string>, pcId: string,
    startTime: string, duration: int, status: ReservationStatus)

  /** A live session. The start is kept in epoch milliseconds; `elapsedTime`
      is the minutes value stored with the record, recomputed on every read. */
  datatype Session = Session(
    id: string, userId: string, userName: string,
    pcId: string, pcNumber: int, startMs: int, elapsedTime: int)

  datatype Role = Cliente | Admin

  /** A stored account, password included. */
  datatype Account = Account(
    id: string, name: string, email: string, password: string,
    role: Role, createdAt: string, isBanned: bool)

  /** An account as the admin listing shows it: no password, date only. */
  datatype ListedUser = ListedUser(
    id: string, name: string, email: string,
    role: Role, createdAt: string, isBanned: bool)

  datatype ReportStatus = Pendiente | Resuelto

  /** `userId` and `userName` come from `user?.id` and `user?.name`. */
  datatype Report = Report(
    id: string, userId: Option<string>, userName: Option<string>,
    subject: string, pcNumber: string, description: string,
    timestamp: string, status: ReportStatus)

  datatype DemandPrediction = DemandPrediction(hour: int, day: string, predictedUsage: int)

  /** A cafeteria order: product id to quantity, total in cents, ISO date. */
  datatype Order = Order(cart: map<string, int>, total: int, date: string)

  /** The public projection of an account that is cached as the current user
      (the `User` of src/contexts/AuthContext.tsx). */
  datatype PublicUser = PublicUser(id: string, email: string, name: string, role: Role)

  /** The value under the `cybercafe_user` key: JSON that parses into a
      user, or text that does not. */
  datatype StoredUser = Parsed(user: PublicUser) | Malformed

  /** The clock: the current time in epoch milliseconds and the ISO-8601
      rendering `new Date(ms).toISOString()`, which the model leaves opaque. */
  datatype Clock = Clock(nowMs: int, iso: int -> string)
}
