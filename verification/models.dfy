/** The records the client exchanges with the remote API and keeps in memory.

    Calendar dates (`YYYY-MM-DD` strings in the source, read as UTC
    midnight) are day numbers; `bookingDate` (an ISO timestamp) is a number
    of milliseconds since the epoch; prices are integers. */
module Models {
  import opened Outcomes

  datatype BookingStatus = Confirmed | Pending | Cancelled

  /** The string value of each status, which the history page compares
      against its status filter. */
  function StatusName(s: BookingStatus): string {
    match s
    case Confirmed => "confirmed"
    case Pending => "pending"
    case Cancelled => "cancelled"
  }

  datatype Booking = Booking(
    id: string,
    roomId: string,
    roomName: string,
    roomType: string,
    guestName: string,
    checkInDate: int,
    checkOutDate: int,
    totalPrice: int,
    numberOfNights: int,
    bookingDate: int,
    status: BookingStatus)

  /** A room; the optional properties of the source are `Option`s. The room
      type is kept as its string value, since every comparison the client
      makes is against strings such as "All". */
  datatype Room = Room(
    id: string,
    name: string,
    roomType: string,
    price: int,
    isAvailable: bool,
    description: Option<string>,
    imageUrl: Option<string>,
    amenities: Option<seq<string>>,
    capacity: Option<int>)

  /** What the booking form emits on submit. */
  datatype BookingFormData = BookingFormData(guestName: string, checkInDate: int, checkOutDate: int)
}
