# Appointment admission

A Dafny model of the service that admits booking requests in a scheduling
back end. A request `{provider_id, user_id, date}` goes through four checks
in a fixed order. The first check that fails decides the error:

1. a user may not book with themselves;
2. the provider id must name a user flagged as a provider;
3. the requested instant is truncated to the start of its hour, and that
   hour must not start before now;
4. no active (not cancelled) appointment of the provider may be stored at
   exactly that hour.

An admitted request is stored with the date as requested, not truncated.
The provider then gets one notification naming the booking user and the
booked hour. Finally every cached key under `user:<user_id>:appointments`
is evicted.

Files:

- `time.dfy` (module `Time`): instants in milliseconds since the epoch, and
  truncation to the hour.
- `cache.dfy` (module `Cache`): the cache as a set of keys, the decimal
  rendering of user ids, the per-user key namespace and prefix eviction.
- `appointments.dfy` (module `Appointments`): users, appointments,
  notifications and errors. `Decide` states the check order as a pure
  function. The class `CreateAppointmentService` holds the user directory,
  the appointment store, the notification log and the cache. Its `Run`
  performs the steps one by one and is proved against `Decide`, field by
  field.
- `admission_properties.dfy` (module `AdmissionProperties`): the guarantees
  the rules give, and what they do not give.

The conflict lookup asks for a stored date equal to the truncated hour. The
insert stores the un-truncated date. So a booking blocks later requests for
its hour only if it was requested exactly on the hour. The model keeps this
behaviour. `AlignedBookingIsVisible` and `SameHourRetryConflicts` prove the
blocking for bookings on the hour. `UnalignedBookingIsInvisible` proves that
a booking stored off the hour changes the answer of no later conflict
lookup, whatever provider and instant that lookup is for. A booking at 14:30
does not block a later request at 14:05 for the same hour: the code admits
both, and `OffTheHourBookingsShareAnHour` proves it.

## Model

| member | source | states |
|---|---|---|
| `Time.StartOfHour` | src/app/services/CreateAppointmentService.js:25 | the hour start is at most the instant, less than an hour before it, on the hour, and equal to the instant when the instant is already on the hour (idempotence) |
| `Time.StartOfHourUnique` | src/app/services/CreateAppointmentService.js:25 | the hour start is the only on-the-hour instant within the hour before the instant |
| `Time.StartOfHourMonotonic` | src/app/services/CreateAppointmentService.js:25 | truncation preserves the order of instants |
| `Cache.DigitChar` | src/app/services/CreateAppointmentService.js:64 | the character is a digit whose code is the digit's value above the code of `0` |
| `Cache.Decimal` | src/app/services/CreateAppointmentService.js:64 | the rendered id is a non-empty run of digits without a leading zero, one digit long exactly for ids below ten |
| `Cache.DecimalRoundTrip` | src/app/services/CreateAppointmentService.js:64 | reading the rendered digits back as a decimal number gives the id |
| `Cache.DecimalInjective` | src/app/services/CreateAppointmentService.js:64 | different ids render differently (a consequence of the round trip) |
| `Cache.AppointmentsNamespace` | src/app/services/CreateAppointmentService.js:64 | the prefix is `user:`, then the decimal id, then `:`, then `appointments` |
| `Cache.NamespacesDisjoint` | src/app/services/CreateAppointmentService.js:64 | no key lies in the namespaces of two different users |
| `Cache.InvalidatePrefix` | src/app/services/CreateAppointmentService.js:64 | every key with the prefix is evicted and every other key is kept |
| `Cache.InvalidationSparesOtherUsers` | src/app/services/CreateAppointmentService.js:64 | evicting one user's listings keeps every cached listing of every other user |
| `Appointments.FindActive` | src/app/services/CreateAppointmentService.js:31-37 | the lookup returns a stored active booking of the provider at exactly the given date, or none when no such booking is stored |
| `Appointments.Decide` | src/app/services/CreateAppointmentService.js:12-41 | self-booking is refused before any other rule; the checks never report the post-insert error; an admission carries the hour start, which is not before now, and happens only for a different user, a provider, and a slot no stored record blocks |
| `Appointments.NewAppointment` | src/app/services/CreateAppointmentService.js:43-47 | the inserted record belongs to the booking user and blocks the conflict lookup of its provider exactly at the requested, un-truncated instant |
| `Appointments.NotificationContent` | src/app/services/CreateAppointmentService.js:51-60 | the text is the fixed opening words `Novo agendamento de `, then the booking user's name, then ` para `, then the rendered hour |
| `Appointments.CreateAppointmentService.Run` | src/app/services/CreateAppointmentService.js:12-66 | a rejection returns the first failing rule's error and changes nothing; an admission appends one record with the requested date and no cancellation and keeps the earlier records; if the booking user is in the directory it appends one notification to the provider built from the user's name and the rendered hour start, evicts exactly the keys under the user's namespace and returns the new record; otherwise it fails with the record already stored and nothing else changed; the directory never changes; the slot invariant is preserved |
| `Appointments.AdmissionKeepsSlotsExclusive` | src/app/services/CreateAppointmentService.js:31-47 | appending a booking that passed the conflict lookup preserves the invariant that no later active booking of a provider falls in the hour of an earlier on-the-hour one |
| `AdmissionProperties.SelfBookingRule` | src/app/services/CreateAppointmentService.js:13-15 | the self-booking error is reported if and only if user and provider are the same, whatever the other fields |
| `AdmissionProperties.InvalidProviderRule` | src/app/services/CreateAppointmentService.js:17-23 | the invalid-provider error is reported if and only if user and provider differ and the provider id names no provider |
| `AdmissionProperties.PastDateRule` | src/app/services/CreateAppointmentService.js:25-29 | the past-date error is reported if and only if the identity checks pass and the hour start is strictly before now |
| `AdmissionProperties.SlotConflictRule` | src/app/services/CreateAppointmentService.js:31-41 | the slot-conflict error is reported if and only if all earlier checks pass and an active booking of the provider is stored at exactly the hour start |
| `AdmissionProperties.AdmissionRule` | src/app/services/CreateAppointmentService.js:12-47 | a request is admitted if and only if no rule fails, and admission carries the hour start |
| `AdmissionProperties.CurrentHourIsPast` | src/app/services/CreateAppointmentService.js:25-29 | a request in the hour now falls in is refused as past unless now is on the hour |
| `AdmissionProperties.PastMeansEarlierHour` | src/app/services/CreateAppointmentService.js:25-29 | when now is on the hour, a request is past exactly when its hour is earlier than now's |
| `AdmissionProperties.AlignedBookingIsVisible` | src/app/services/CreateAppointmentService.js:31-47 | a booking stored on the hour is found by the conflict lookup for its hour right after the insert |
| `AdmissionProperties.UnalignedBookingIsInvisible` | src/app/services/CreateAppointmentService.js:31-47 | a booking stored off the hour leaves every later conflict lookup, for any provider and any requested instant, answering as before the insert |
| `AdmissionProperties.SameHourNeverAdmittedTwice` | src/app/services/CreateAppointmentService.js:31-47 | after an admission on the hour, no later request for that provider and hour is admitted |
| `AdmissionProperties.SameHourRetryConflicts` | src/app/services/CreateAppointmentService.js:31-47 | after an admission on the hour, a later request for that provider and hour that is neither a self-booking nor past fails with the slot-conflict error |
| `AdmissionProperties.NoDoubleBookingOnTheHour` | src/app/services/CreateAppointmentService.js:31-47 | under the slot invariant no provider holds two active bookings stored at the same on-the-hour instant |
| `AdmissionProperties.OffTheHourBookingsShareAnHour` | src/app/services/CreateAppointmentService.js:25-47 | bookings at 14:30 and then 14:05 of the same day and provider are both admitted, because the first is stored at 14:30 and the lookup asks for 14:00 |
| `AdmissionProperties.BookSameHourTwice` | src/app/services/CreateAppointmentService.js:12-66 | two requests through the service for one provider and one hour, the first on the hour: once the first is stored (booked, or failed because the booking user is missing), the second fails with the slot-conflict error; a booked first request keeps the earlier records and notifications and adds exactly its own record and one notification addressed to the provider |

## Left out

- Parsing of the request date (`parseISO`): the date is taken as an already valid instant. A malformed date is not handled by this code.
- Rendering of the hour with `date-fns` `format` and the Portuguese locale: it is the `formatDate` parameter of `Run`, an arbitrary function from instants to strings.
- The clock (`new Date()`): it is the `now` parameter of `Run`.
- Time zones: hours are taken to start at whole multiples of one hour from the epoch (UTC, or a zone with a whole-hour offset).
- Sequelize, MongoDB and the cache library: they are modelled as fields of the class. The generated appointment id and timestamp columns are not modelled. Failures of the notification insert or of the cache call are not modelled.
- `async`/`await` and concurrent requests: the race between the conflict lookup and the insert is outside a sequential model.
- The JavaScript strict equality on ids of possibly different runtime types: ids are natural numbers, so equal means equal.
- The degraded case where `User.findByPk` finds no user after the insert: it is the error `BookingUserMissing`. The appointment is already stored, and no notification or cache eviction happens.
- Cancellation of appointments is done elsewhere and is not modelled; records only carry the `canceledAt` field the lookup filters on.
- `src/app/controllers/AvaiableController.js`: request and response plumbing around a service that is not part of this model.
