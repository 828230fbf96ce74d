/**
 The attendance vocabulary the salary panel consumes: one status per calendar
 day, keyed by the day's date string ("yyyy-MM-dd").
 */
module Attendance {

  /**
   The status of one day. The component compares statuses against exactly three
   literals, "holiday", "absent" and "double"; `Present` stands for "present"
   and for every other status those comparisons do not single out.
   */
  datatype Status = Present | Absent | Double | Holiday

  /** `Record<string, AttendanceStatus>`: date key to status. */
  type AttendanceMap = map<string, Status>
}
