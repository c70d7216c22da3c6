/** Appointment admission: the checks that decide whether a booking request
    `{provider_id, user_id, date}` is admitted, in their fixed order, and the
    service that runs them against the user directory, the appointment
    store, the notification log and the cache. */
module Appointments {
  import opened Time
  import opened Cache

  datatype Option<T> = None | Some(value: T)

  /** Users and providers are identified by their numeric primary key. */
  type UserId = nat

  /** A directory entry; `provider` marks a user who may receive bookings. */
  datatype User = User(name: string, provider: bool)

  /** A stored booking. `date` is the instant that was requested, not its
      hour; `canceledAt` is None while the booking is active. */
  datatype Appointment = Appointment(
    userId: UserId,
    providerId: UserId,
    date: Instant,
    canceledAt: Option<Instant>)

  /** A message in the notification log, addressed to `recipient`. */
  datatype Notification = Notification(content: string, recipient: UserId)

  datatype BookingError =
    | SelfBooking         // the user tried to book with themselves
    | InvalidProvider     // no user with the provider id is a provider
    | PastDate            // the requested hour starts before now
    | SlotConflict        // an active booking of the provider is stored at that hour
    | BookingUserMissing  // the booking user vanished after the insert:
                          // the appointment is stored, nothing else happened

  datatype Outcome = Booked(appointment: Appointment) | Failed(error: BookingError)

  /** The verdict of the checks: the first rule that fails, or admission
      with the start of the requested hour. */
  datatype Decision = Rejected(error: BookingError) | Admitted(hourStart: Instant)

  /** The provider lookup: a directory entry with this id flagged as provider. */
  predicate IsProvider(users: map<UserId, User>, id: UserId)
  {
    id in users && users[id].provider
  }

  /** The record the conflict lookup asks for: an active booking of
      `providerId` whose stored date is exactly `hourStart`. */
  predicate BlocksSlot(a: Appointment, providerId: UserId, hourStart: Instant)
  {
    a.providerId == providerId && a.canceledAt == None && a.date == hourStart
  }

  /** The conflict lookup: some stored record that blocks the slot, or None
      when there is none. */
  function FindActive(store: seq<Appointment>, providerId: UserId, hourStart: Instant)
    : (r: Option<Appointment>)
    ensures r.Some? ==> r.value in store && BlocksSlot(r.value, providerId, hourStart)
    ensures r.None? ==> forall a :: a in store ==> !BlocksSlot(a, providerId, hourStart)
  {
    if store == [] then None
    else if BlocksSlot(store[0], providerId, hourStart) then Some(store[0])
    else FindActive(store[1..], providerId, hourStart)
  }

  /** The text of the provider's notification, built from the booking
      user's name and the rendered start of the booked hour. */
  function NotificationContent(name: string, when: string): (content: string)
    ensures |content| == |name| + |when| + 26
    ensures content[..20] == "Novo agendamento de "
    ensures content[20 + |name|..|content| - |when|] == " para "
    ensures content[20..20 + |name|] == name
    ensures content[|content| - |when|..] == when
  {
    "Novo agendamento de " + name + " para " + when
  }

  /** The record a successful admission inserts: the requested, un-truncated
      date, and no cancellation. */
  function NewAppointment(userId: UserId, providerId: UserId, date: Instant): (a: Appointment)
    ensures a.userId == userId
    ensures forall h :: BlocksSlot(a, providerId, h) <==> h == date
  {
    Appointment(userId, providerId, date, None)
  }

  /** The admission rules in the order the service applies them; the first
      one that fails decides the error. */
  function Decide(
    users: map<UserId, User>, store: seq<Appointment>,
    providerId: UserId, userId: UserId, date: Instant, now: Instant): (d: Decision)
    ensures userId == providerId ==> d == Rejected(SelfBooking)
    ensures d.Rejected? ==> d.error != BookingUserMissing
    ensures d.Admitted? ==>
      && d.hourStart == StartOfHour(date) && now <= d.hourStart
      && userId != providerId && IsProvider(users, providerId)
      && forall a :: a in store ==> !BlocksSlot(a, providerId, d.hourStart)
  {
    if userId == providerId then Rejected(SelfBooking)
    else if !IsProvider(users, providerId) then Rejected(InvalidProvider)
    else
      var hourStart := StartOfHour(date);
      if hourStart < now then Rejected(PastDate)
      else if FindActive(store, providerId, hourStart).Some? then Rejected(SlotConflict)
      else Admitted(hourStart)
  }

  /** The invariant admission keeps: a later active booking of a provider
      never falls in the hour of an earlier active booking of the same
      provider whose stored date is on the hour. (Earlier bookings stored
      off the hour are invisible to the conflict lookup and protect nothing.) */
  ghost predicate AlignedSlotsExclusive(store: seq<Appointment>)
  {
    forall i, j :: 0 <= i < j < |store| &&
      store[i].canceledAt == None && store[j].canceledAt == None &&
      store[i].providerId == store[j].providerId && IsHourAligned(store[i].date)
      ==> StartOfHour(store[j].date) != store[i].date
  }

  /** The admission service over the state it reads and writes: the user
      directory (read only), the appointment store, the notification log and
      the set of cached keys. */
  class CreateAppointmentService {
    var users: map<UserId, User>
    var appointments: seq<Appointment>
    var notifications: seq<Notification>
    var cache: set<string>

    constructor (
      users: map<UserId, User>, appointments: seq<Appointment>,
      notifications: seq<Notification>, cache: set<string>)
      ensures this.users == users && this.appointments == appointments
      ensures this.notifications == notifications && this.cache == cache
    {
      this.users := users;
      this.appointments := appointments;
      this.notifications := notifications;
      this.cache := cache;
    }

    /** Handles one booking request at instant `now`; `formatDate` renders
        an instant for the notification text.
        A rejected request changes nothing. An admitted one stores the
        request with its original date, then, if the booking user is in the
        directory, notifies the provider once and evicts the user's cached
        listings; otherwise it fails with the booking already stored. */
    method Run(
      providerId: UserId, userId: UserId, date: Instant, now: Instant,
      formatDate: Instant -> string)
      returns (r: Outcome)
      modifies this
      ensures users == old(users)
      ensures Decide(old(users), old(appointments), providerId, userId, date, now).Rejected? ==>
        && r == Failed(Decide(old(users), old(appointments), providerId, userId, date, now).error)
        && appointments == old(appointments)
        && notifications == old(notifications)
        && cache == old(cache)
      ensures Decide(old(users), old(appointments), providerId, userId, date, now).Admitted? ==>
        appointments == old(appointments) + [NewAppointment(userId, providerId, date)]
      ensures (Decide(old(users), old(appointments), providerId, userId, date, now).Admitted? &&
               userId in users) ==>
        && r == Booked(NewAppointment(userId, providerId, date))
        && notifications == old(notifications) + [Notification(
             NotificationContent(users[userId].name, formatDate(StartOfHour(date))), providerId)]
        && cache == InvalidatePrefix(old(cache), AppointmentsNamespace(userId))
      ensures (Decide(old(users), old(appointments), providerId, userId, date, now).Admitted? &&
               userId !in users) ==>
        && r == Failed(BookingUserMissing)
        && notifications == old(notifications)
        && cache == old(cache)
      ensures AlignedSlotsExclusive(old(appointments)) ==> AlignedSlotsExclusive(appointments)
    {
      if userId == providerId {
        return Failed(SelfBooking);
      }
      if !IsProvider(users, providerId) {
        return Failed(InvalidProvider);
      }
      var hourStart := StartOfHour(date);
      if hourStart < now {
        return Failed(PastDate);
      }
      var existing := FindActive(appointments, providerId, hourStart);
      if existing.Some? {
        return Failed(SlotConflict);
      }
      var appointment := NewAppointment(userId, providerId, date);
      AdmissionKeepsSlotsExclusive(appointments, providerId, userId, date, hourStart);
      appointments := appointments + [appointment];
      if userId !in users {
        return Failed(BookingUserMissing);
      }
      var user := users[userId];
      notifications := notifications + [Notification(
        NotificationContent(user.name, formatDate(hourStart)), providerId)];
      cache := InvalidatePrefix(cache, AppointmentsNamespace(userId));
      return Booked(appointment);
    }
  }

  /** Appending a booking that passed the conflict lookup keeps the slots of
      aligned bookings exclusive. */
  lemma AdmissionKeepsSlotsExclusive(
    store: seq<Appointment>, providerId: UserId, userId: UserId, date: Instant, hourStart: Instant)
    requires hourStart == StartOfHour(date)
    requires FindActive(store, providerId, hourStart).None?
    ensures AlignedSlotsExclusive(store) ==>
      AlignedSlotsExclusive(store + [NewAppointment(userId, providerId, date)])
  {
    var s := store + [NewAppointment(userId, providerId, date)];
    if AlignedSlotsExclusive(store) {
      forall i, j | 0 <= i < j < |s| &&
        s[i].canceledAt == None && s[j].canceledAt == None &&
        s[i].providerId == s[j].providerId && IsHourAligned(s[i].date)
        ensures StartOfHour(s[j].date) != s[i].date
      {
        if j == |store| {
          assert s[i] in store;
          assert !BlocksSlot(s[i], providerId, hourStart);
        } else {
          assert s[i] == store[i] && s[j] == store[j];
        }
      }
    }
  }
}
