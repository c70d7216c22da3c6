/** What the admission rules guarantee: each error is reported exactly when
    its rule is the first to fail, a request in the current hour is too
    late unless the clock is on the hour, a booking stored on the hour
    blocks every later request for that hour, and one stored off the hour
    blocks nothing. */
module AdmissionProperties {
  import opened Time
  import opened Appointments

  /** Booking with oneself is refused whatever the other fields are, and it
      is the only cause of that error. */
  lemma SelfBookingRule(
    users: map<UserId, User>, store: seq<Appointment>,
    providerId: UserId, userId: UserId, date: Instant, now: Instant)
    ensures Decide(users, store, providerId, userId, date, now) == Rejected(SelfBooking)
      <==> userId == providerId
  {
  }

  /** The invalid-provider error is reported exactly when the user differs
      from the provider and the provider id names no provider. */
  lemma InvalidProviderRule(
    users: map<UserId, User>, store: seq<Appointment>,
    providerId: UserId, userId: UserId, date: Instant, now: Instant)
    ensures Decide(users, store, providerId, userId, date, now) == Rejected(InvalidProvider)
      <==> userId != providerId && !IsProvider(users, providerId)
  {
  }

  /** The past-date error is reported exactly when the identity checks pass
      and the requested hour starts strictly before now. */
  lemma PastDateRule(
    users: map<UserId, User>, store: seq<Appointment>,
    providerId: UserId, userId: UserId, date: Instant, now: Instant)
    ensures Decide(users, store, providerId, userId, date, now) == Rejected(PastDate)
      <==> userId != providerId && IsProvider(users, providerId) && StartOfHour(date) < now
  {
  }

  /** The slot-conflict error is reported exactly when every earlier check
      passes and an active booking of the provider is stored at exactly the
      start of the requested hour. */
  lemma SlotConflictRule(
    users: map<UserId, User>, store: seq<Appointment>,
    providerId: UserId, userId: UserId, date: Instant, now: Instant)
    ensures Decide(users, store, providerId, userId, date, now) == Rejected(SlotConflict)
      <==> && userId != providerId && IsProvider(users, providerId)
           && now <= StartOfHour(date)
           && exists a :: a in store && BlocksSlot(a, providerId, StartOfHour(date))
  {
  }

  /** A request is admitted exactly when no rule fails, and admission
      reports the start of the requested hour. */
  lemma AdmissionRule(
    users: map<UserId, User>, store: seq<Appointment>,
    providerId: UserId, userId: UserId, date: Instant, now: Instant)
    ensures Decide(users, store, providerId, userId, date, now).Admitted?
      <==> && userId != providerId && IsProvider(users, providerId)
           && now <= StartOfHour(date)
           && forall a :: a in store ==> !BlocksSlot(a, providerId, StartOfHour(date))
    ensures Decide(users, store, providerId, userId, date, now).Admitted? ==>
      Decide(users, store, providerId, userId, date, now).hourStart == StartOfHour(date)
  {
  }

  /** Since the check compares the truncated hour with now, any request for
      the hour now falls in is refused as past unless now is exactly on the
      hour. */
  lemma CurrentHourIsPast(
    users: map<UserId, User>, store: seq<Appointment>,
    providerId: UserId, userId: UserId, date: Instant, now: Instant)
    requires userId != providerId && IsProvider(users, providerId)
    requires StartOfHour(date) == StartOfHour(now)
    requires !IsHourAligned(now)
    ensures Decide(users, store, providerId, userId, date, now) == Rejected(PastDate)
  {
  }

  /** A request is past exactly when it truncates to an earlier hour than
      now does, provided now is on the hour. */
  lemma PastMeansEarlierHour(date: Instant, now: Instant)
    requires IsHourAligned(now)
    ensures StartOfHour(date) < now <==> StartOfHour(date) < StartOfHour(now)
  {
  }

  /** A booking stored on the hour is found by the conflict lookup for that
      hour straight after it is inserted. */
  lemma AlignedBookingIsVisible(store: seq<Appointment>, userId: UserId, providerId: UserId, date: Instant)
    requires IsHourAligned(date)
    ensures FindActive(store + [NewAppointment(userId, providerId, date)], providerId, StartOfHour(date)).Some?
  {
    var s := store + [NewAppointment(userId, providerId, date)];
    assert s[|store|] in s;
  }

  /** A booking stored off the hour is invisible to every conflict lookup:
      whatever provider and whatever requested instant a later request
      names, the lookup answers as it did before the insert. */
  lemma UnalignedBookingIsInvisible(
    store: seq<Appointment>, userId: UserId, providerId: UserId, date: Instant,
    otherProvider: UserId, date2: Instant)
    requires !IsHourAligned(date)
    ensures FindActive(store + [NewAppointment(userId, providerId, date)], otherProvider, StartOfHour(date2)).Some?
      <==> FindActive(store, otherProvider, StartOfHour(date2)).Some?
  {
  }

  /** After a request stored on the hour is admitted, no later request for
      the same provider in the same hour is admitted. */
  lemma SameHourNeverAdmittedTwice(
    users: map<UserId, User>, store: seq<Appointment>,
    providerId: UserId, userId: UserId, date: Instant, now: Instant,
    userId2: UserId, date2: Instant, now2: Instant)
    requires Decide(users, store, providerId, userId, date, now).Admitted?
    requires IsHourAligned(date)
    requires StartOfHour(date2) == StartOfHour(date)
    ensures !Decide(users, store + [NewAppointment(userId, providerId, date)],
                    providerId, userId2, date2, now2).Admitted?
  {
    AlignedBookingIsVisible(store, userId, providerId, date);
  }

  /** The same, stated as the error the second request gets when it is
      neither a self-booking nor too late. */
  lemma SameHourRetryConflicts(
    users: map<UserId, User>, store: seq<Appointment>,
    providerId: UserId, userId: UserId, date: Instant, now: Instant,
    userId2: UserId, date2: Instant, now2: Instant)
    requires Decide(users, store, providerId, userId, date, now).Admitted?
    requires IsHourAligned(date)
    requires StartOfHour(date2) == StartOfHour(date)
    requires userId2 != providerId && now2 <= StartOfHour(date2)
    ensures Decide(users, store + [NewAppointment(userId, providerId, date)],
                   providerId, userId2, date2, now2) == Rejected(SlotConflict)
  {
    AlignedBookingIsVisible(store, userId, providerId, date);
  }

  /** Under the admission invariant no provider holds two active bookings
      stored at the same on-the-hour instant. */
  lemma NoDoubleBookingOnTheHour(store: seq<Appointment>, i: nat, j: nat)
    requires AlignedSlotsExclusive(store)
    requires i < |store| && j < |store| && i != j
    requires store[i].canceledAt == None && store[j].canceledAt == None
    requires store[i].providerId == store[j].providerId
    requires IsHourAligned(store[i].date) && IsHourAligned(store[j].date)
    ensures store[i].date != store[j].date
  {
  }

  // 2024-03-10T14:00, 14:05 and 14:30 (UTC), in milliseconds since the epoch.
  const AtFourteen: Instant := 1_710_079_200_000
  const AtFourteenOhFive: Instant := 1_710_079_500_000
  const AtFourteenThirty: Instant := 1_710_081_000_000

  /** Two bookings in the same hour, the first at 14:30 and the second at
      14:05, are both admitted: the first is stored at 14:30 while the
      lookup for the second asks for 14:00. */
  lemma OffTheHourBookingsShareAnHour()
    ensures StartOfHour(AtFourteenThirty) == StartOfHour(AtFourteenOhFive) == AtFourteen
    ensures
      var users := map[1 := User("P", true), 2 := User("U", false), 3 := User("V", false)];
      && Decide(users, [], 1, 2, AtFourteenThirty, AtFourteen) == Admitted(AtFourteen)
      && Decide(users, [NewAppointment(2, 1, AtFourteenThirty)], 1, 3, AtFourteenOhFive, AtFourteen)
           == Admitted(AtFourteen)
  {
  }

  /** Two successive requests through the service for the same provider and
      the same hour, the first on the hour. Once the first is stored, whether
      it is booked or fails because the booking user is missing, the second
      is refused with a slot conflict. A booked first request leaves the
      earlier records and notifications in place and adds its own record
      and one notification to the provider. */
  method BookSameHourTwice(
    svc: CreateAppointmentService, providerId: UserId, userId: UserId, userId2: UserId,
    date: Instant, date2: Instant, now: Instant, formatDate: Instant -> string)
    returns (first: Outcome, second: Outcome)
    requires IsHourAligned(date) && StartOfHour(date2) == date
    requires userId2 != providerId && now <= date
    modifies svc
    ensures (first.Booked? || first == Failed(BookingUserMissing)) ==> second == Failed(SlotConflict)
    ensures first.Booked? ==>
      && svc.appointments == old(svc.appointments) + [NewAppointment(userId, providerId, date)]
      && |svc.notifications| == |old(svc.notifications)| + 1
      && svc.notifications[..|old(svc.notifications)|] == old(svc.notifications)
      && svc.notifications[|old(svc.notifications)|].recipient == providerId
  {
    first := svc.Run(providerId, userId, date, now, formatDate);
    if first.Booked? || first == Failed(BookingUserMissing) {
      SameHourRetryConflicts(old(svc.users), old(svc.appointments), providerId, userId, date, now,
        userId2, date2, now);
    }
    second := svc.Run(providerId, userId2, date2, now, formatDate);
  }
}
