/**
  The dashboard's summary record and its mock value, `src/types/admin.ts`.
  Application times are milliseconds since the epoch; the mock data places
  them a whole number of hours before the current time.
 */
module AdminTypes {
  datatype ApplicationStatus = PendingApplication | ApprovedApplication | RejectedApplication

  datatype VolunteerApplication = VolunteerApplication(
    id: string,
    volunteerId: string,
    volunteerName: string,
    volunteerEmail: string,
    opportunityId: string,
    opportunityTitle: string,
    status: ApplicationStatus,
    appliedAt: int)

  datatype AdminSummaryData = AdminSummaryData(
    pendingVolunteers: nat,
    activeVolunteers: nat,
    pendingOpportunities: nat,
    activeOpportunities: nat,
    completedOpportunities: nat,
    totalVolunteerHours: nat,
    recentApplications: seq<VolunteerApplication>)

  const HourMs := 60 * 60 * 1000

  /** `getMockAdminSummaryData()` at time `now`. */
  function MockSummaryData(now: int): (r: AdminSummaryData)
    ensures |r.recentApplications| == 5
    ensures forall k :: 0 <= k < 5 ==> r.recentApplications[k].status == PendingApplication
    ensures forall k :: 0 <= k < 5 ==> r.recentApplications[k].appliedAt < now
  {
    AdminSummaryData(15, 243, 4, 12, 87, 5238, [
      VolunteerApplication("1", "v1", "Ahmed Mohammed", "ahmed@example.com", "o1",
        "Translation Services at Grand Mosque", PendingApplication, now - 2 * HourMs),
      VolunteerApplication("2", "v2", "Fatima Ali", "fatima@example.com", "o2",
        "Visitor Guidance in Prophet's Mosque", PendingApplication, now - 5 * HourMs),
      VolunteerApplication("3", "v3", "Omar Abdullah", "omar@example.com", "o3",
        "Elderly Assistance Program", PendingApplication, now - 12 * HourMs),
      VolunteerApplication("4", "v4", "Aisha Rahman", "aisha@example.com", "o1",
        "Translation Services at Grand Mosque", PendingApplication, now - 18 * HourMs),
      VolunteerApplication("5", "v5", "Mohammed Saleh", "msaleh@example.com", "o4",
        "Water Distribution Team", PendingApplication, now - 24 * HourMs)
    ])
  }
}
