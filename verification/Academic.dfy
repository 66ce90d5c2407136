/** The terms and states that semesters and enrollments share. */
module Academic {

  datatype Term = Fall | Spring | Summer | Annual

  datatype SemesterStatus = Upcoming | Active | Grading | Finalized | Archived

  datatype EnrollmentStatus = Enrolled | Completed | Failed | Dropped | WithdrawnLeave
}
