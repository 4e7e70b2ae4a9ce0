/** `BookRoomModalComponent`: the reactive booking form, its validators and
    messages, the nights-and-price preview, and the submit guard.

    Form values are what the controls hold: the guest name as typed (a
    control cleared by `reset` holds null, which every validator treats
    like the empty string, so it is the empty string here) and each date as
    a day number, `None` while the date input is empty. Today's day number
    is an input. */
module BookingForm {
  import opened Outcomes
  import opened Models
  import opened Text
  import BookingService

  const MinNameLength: nat := 3
  const MaxNameLength: nat := 50

  datatype Form = Form(guestName: string, checkIn: Option<int>, checkOut: Option<int>)

  const EmptyForm: Form := Form("", None, None)

  /** The three controls of the form. */
  datatype Control = GuestName | CheckInDate | CheckOutDate

  /** A letter, white space, an apostrophe or a hyphen: the class
      `[a-zA-Z\s'-]` of the name pattern. */
  predicate NameChar(c: char) {
    ('a' <= c <= 'z') || ('A' <= c <= 'Z') || IsSpace(c) || c == '\'' || c == '-'
  }

  /** The errors Angular's validators attach to one control. `minlength`
      and `pattern` skip an empty value; lengths are UTF-16 code units. */
  datatype ControlErrors = ControlErrors(required: bool, minlength: bool, maxlength: bool, pattern: bool)
  {
    predicate Valid() {
      !required && !minlength && !maxlength && !pattern
    }
  }

  function NameErrors(name: string): (e: ControlErrors)
    ensures e.required <==> name == []
    ensures e.minlength <==> name != [] && Utf16Length(name) < MinNameLength
    ensures e.maxlength <==> Utf16Length(name) > MaxNameLength
    ensures e.pattern <==> name != [] && exists i :: 0 <= i < |name| && !NameChar(name[i])
  {
    ControlErrors(
      name == [],
      name != [] && Utf16Length(name) < MinNameLength,
      Utf16Length(name) > MaxNameLength,
      name != [] && !AllNameChars(name))
  }

  predicate AllNameChars(s: string) {
    forall i :: 0 <= i < |s| ==> NameChar(s[i])
  }

  /** A date control only carries `Validators.required`. */
  function DateErrors(date: Option<int>): (e: ControlErrors)
    ensures e.Valid() <==> date.Some?
  {
    ControlErrors(date.None?, false, false, false)
  }

  function Errors(f: Form, c: Control): ControlErrors {
    match c
    case GuestName => NameErrors(f.guestName)
    case CheckInDate => DateErrors(f.checkIn)
    case CheckOutDate => DateErrors(f.checkOut)
  }

  /** A guest name passes every validator exactly when it has 3 to 50
      characters, all of them letters, white space, apostrophes or hyphens. */
  lemma GuestNameValidIff(name: string)
    ensures NameErrors(name).Valid() <==>
              MinNameLength <= |name| <= MaxNameLength && AllNameChars(name)
  {
    if AllNameChars(name) {
      assert forall i :: 0 <= i < |name| ==> name[i] as int < 0x1_0000;
    }
  }

  /** `dateRangeValidator`: both dates present and the check-out not after
      the check-in. */
  function DateRangeError(f: Form): (r: bool)
    ensures r ==> f.checkIn.Some? && f.checkOut.Some?
    ensures f.checkIn.Some? && f.checkOut.Some? ==>
              var nights := BookingService.NumberOfNights(f.checkIn.value, f.checkOut.value);
              (!r <==> nights >= 1 && f.checkIn.value + nights == f.checkOut.value)
  {
    f.checkIn.Some? && f.checkOut.Some? && f.checkOut.value <= f.checkIn.value
  }

  /** `minDateValidator`: a check-in before today. */
  function PastDateError(f: Form, today: int): (r: bool)
    ensures r ==> f.checkIn.Some?
    ensures f.checkIn.Some? ==>
              (r <==> !BookingService.IsValidDateRange(today, f.checkIn.value, f.checkIn.value + 1))
  {
    f.checkIn.Some? && f.checkIn.value < today
  }

  /** `bookingForm.valid`. */
  predicate IsValid(f: Form, today: int) {
    && NameErrors(f.guestName).Valid()
    && DateErrors(f.checkIn).Valid() && DateErrors(f.checkOut).Valid()
    && !DateRangeError(f) && !PastDateError(f, today)
  }

  /** The dates of a valid form are exactly the ranges the booking service
      calls valid. */
  lemma ValidDatesMatchService(f: Form, today: int)
    requires f.checkIn.Some? && f.checkOut.Some?
    ensures !DateRangeError(f) && !PastDateError(f, today) <==>
              BookingService.IsValidDateRange(today, f.checkIn.value, f.checkOut.value)
  {
  }

  /** `getControlLabel`. */
  function Label(c: Control): string {
    match c
    case GuestName => "Guest name"
    case CheckInDate => "Check-in date"
    case CheckOutDate => "Check-out date"
  }

  /** `getErrorMessage`: the first failing check in the order required,
      minlength, maxlength, pattern; empty when the control is valid. */
  function ErrorMessage(f: Form, c: Control): (r: string)
    ensures r == [] <==> Errors(f, c).Valid()
    ensures Errors(f, c).required ==> r == Label(c) + " is required"
    ensures !Errors(f, c).required && Errors(f, c).minlength ==>
              r == Label(c) + " must be at least " + Decimal(MinNameLength) + " characters"
    ensures !Errors(f, c).required && !Errors(f, c).minlength && Errors(f, c).maxlength ==>
              r == Label(c) + " must not exceed " + Decimal(MaxNameLength) + " characters"
    ensures (!Errors(f, c).required && !Errors(f, c).minlength && !Errors(f, c).maxlength
             && Errors(f, c).pattern) ==> r == Label(c) + " contains invalid characters"
  {
    var e := Errors(f, c);
    if e.required then Label(c) + " is required"
    else if e.minlength then Label(c) + " must be at least " + Decimal(MinNameLength) + " characters"
    else if e.maxlength then Label(c) + " must not exceed " + Decimal(MaxNameLength) + " characters"
    else if e.pattern then Label(c) + " contains invalid characters"
    else ""
  }

  const DateRangeMessage: string := "Check-out date must be after check-in date"
  const PastDateMessage: string := "Check-in date cannot be in the past"

  /** `getFormErrorMessage`: a bad range is reported before a past date. */
  function FormErrorMessage(f: Form, today: int): (r: string)
    ensures r == [] <==> !DateRangeError(f) && !PastDateError(f, today)
    ensures DateRangeError(f) ==> r == DateRangeMessage
    ensures r == PastDateMessage ==> PastDateError(f, today)
    ensures !DateRangeError(f) && PastDateError(f, today) ==> r == PastDateMessage
  {
    if DateRangeError(f) then DateRangeMessage
    else if PastDateError(f, today) then PastDateMessage
    else ""
  }

  /** The two signals `calculateBookingDetails` sets. */
  datatype Preview = Preview(nights: int, totalPrice: int)

  /** `calculateBookingDetails`: nights and price when both dates are set
      and the check-out is later, zero otherwise. */
  function CalculatePreview(f: Form, price: int): (r: Preview)
    ensures f.checkIn.Some? && f.checkOut.Some? && f.checkOut.value > f.checkIn.value ==>
              r.nights == f.checkOut.value - f.checkIn.value > 0
    ensures !(f.checkIn.Some? && f.checkOut.Some? && f.checkOut.value > f.checkIn.value) ==>
              r.nights == 0
    ensures r.totalPrice == r.nights * price
  {
    if f.checkIn.Some? && f.checkOut.Some? && f.checkOut.value > f.checkIn.value then
      var nights := BookingService.NumberOfNights(f.checkIn.value, f.checkOut.value);
      Preview(nights, nights * price)
    else Preview(0, 0)
  }

  /** The component's state: the form, whether its controls are touched,
      the submit latch and the preview. */
  datatype Modal = Modal(form: Form, touched: bool, isSubmitting: bool, preview: Preview)

  /** The state after `ngOnInit`. */
  const Initial: Modal := Modal(EmptyForm, false, false, Preview(0, 0))

  /** A value change: the form takes the new values and the preview is
      recomputed from them. */
  function Edit(m: Modal, f: Form, price: int): (r: Modal)
    ensures r.form == f && r.touched == m.touched && r.isSubmitting == m.isSubmitting
    ensures r.preview == CalculatePreview(f, price)
  {
    m.(form := f, preview := CalculatePreview(f, price))
  }

  /** What `onSubmit` leaves behind and what it emits. */
  datatype Submitted = Submitted(modal: Modal, emitted: Option<BookingFormData>)

  /** `onSubmit`: a valid form not already being submitted emits its data,
      with the guest name trimmed, and latches `isSubmitting`; anything else
      only marks the controls touched. */
  function OnSubmit(m: Modal, today: int): (r: Submitted)
    ensures r.emitted.Some? <==> IsValid(m.form, today) && !m.isSubmitting
    ensures r.emitted.Some? ==>
              && r.emitted.value.guestName == Trim(m.form.guestName)
              && m.form.checkIn == Some(r.emitted.value.checkInDate)
              && m.form.checkOut == Some(r.emitted.value.checkOutDate)
              && r.modal == m.(isSubmitting := true)
    ensures r.emitted.None? ==> r.modal == m.(touched := true)
  {
    if IsValid(m.form, today) && !m.isSubmitting then
      var data := BookingFormData(Trim(m.form.guestName), m.form.checkIn.value, m.form.checkOut.value);
      Submitted(m.(isSubmitting := true), Some(data))
    else Submitted(m.(touched := true), None)
  }

  /** `resetForm`: every control emptied and untouched, the preview zeroed,
      the latch released. */
  function Reset(m: Modal): (r: Modal)
    ensures r.form == EmptyForm && !r.touched && !r.isSubmitting
    ensures r.preview.nights == 0 && r.preview.totalPrice == 0
  {
    Modal(EmptyForm, false, false, Preview(0, 0))
  }

  /** A second submit while the first is latched emits nothing. */
  lemma SubmitIsLatched(m: Modal, today: int)
    ensures OnSubmit(OnSubmit(m, today).modal, today).emitted.None?
  {
  }

  /** A reset form cannot be submitted: the name and both dates are
      required. */
  lemma ResetFormIsInvalid(m: Modal, today: int)
    ensures !IsValid(Reset(m).form, today)
    ensures ErrorMessage(Reset(m).form, GuestName) == "Guest name is required"
  {
  }

  /** For a valid form, the preview shows the nights and price the booking
      service will record for the submitted data. */
  lemma PreviewMatchesBooking(m: Modal, room: Room, today: int, now: int, localId: string)
    requires IsValid(m.form, today) && !m.isSubmitting
    requires BookingService.IsLocalId(localId)
    ensures var data := OnSubmit(m, today).emitted.value;
            var b := BookingService.CreateBooking(BookingService.Store([], []), room, data, now,
                                                  Fail, localId, true).value;
            && CalculatePreview(m.form, room.price).nights == b.numberOfNights
            && CalculatePreview(m.form, room.price).totalPrice == b.totalPrice
  {
    var data := OnSubmit(m, today).emitted.value;
    assert data.checkInDate == m.form.checkIn.value && data.checkOutDate == m.form.checkOut.value;
    var b := BookingService.CreateBooking(BookingService.Store([], []), room, data, now,
                                          Fail, localId, true).value;
    assert BookingService.Describes(b, room, data, now);
    var p := CalculatePreview(m.form, room.price);
    assert p.nights == BookingService.DayDistance(data.checkInDate, data.checkOutDate);
  }

  /** A name of white space only passes every validator, since `\s`
      belongs to the allowed class, and is submitted as the empty string. */
  lemma BlankNameIsAccepted(m: Modal, today: int)
    requires m.form.guestName == "   " && !m.isSubmitting
    requires m.form.checkIn.Some? && m.form.checkOut.Some?
    requires today <= m.form.checkIn.value < m.form.checkOut.value
    ensures OnSubmit(m, today).emitted.Some?
    ensures OnSubmit(m, today).emitted.value.guestName == ""
  {
    GuestNameValidIff("   ");
    assert AllSpace("   ");
  }

  /** A two-letter name is reported as too short, naming the minimum 3. */
  lemma ShortNameMessage()
    ensures ErrorMessage(Form("Al", None, None), GuestName)
            == Label(GuestName) + " must be at least " + Decimal(MinNameLength) + " characters"
    ensures Decimal(MinNameLength) == "3"
  {
    var name := "Al";
    assert Utf16Length(name) == 2;
    var e := NameErrors(name);
    assert !e.required && e.minlength;
    assert Errors(Form(name, None, None), GuestName) == e;
  }

  /** A digit is outside the allowed class. */
  lemma DigitNameMessage()
    ensures ErrorMessage(Form("Jo3", None, None), GuestName) == Label(GuestName) + " contains invalid characters"
  {
    var name := "Jo3";
    assert Utf16Length(name) == 3;
    assert !NameChar(name[2]);
    var e := NameErrors(name);
    assert !e.required && !e.minlength && !e.maxlength && e.pattern;
    assert Errors(Form(name, None, None), GuestName) == e;
  }

  /** Apostrophes and hyphens are inside the allowed class. */
  lemma PunctuatedNameIsValid()
    ensures ErrorMessage(Form("O'Ne-al", None, None), GuestName) == ""
  {
    var name := "O'Ne-al";
    assert NameChar(name[0]) && NameChar(name[1]) && NameChar(name[2]) && NameChar(name[3]);
    assert NameChar(name[4]) && NameChar(name[5]) && NameChar(name[6]);
    assert AllNameChars(name);
    GuestNameValidIff(name);
  }
}
