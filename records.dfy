/**
 * The records the adapter keeps in its configuration and produces at run time:
 * customers (keyed by customer key), employees (keyed by tracking-device key),
 * the open session of a device and the log entry written when it closes.
 * Numbers the configuration holds as JavaScript numbers are `real`s here;
 * timestamps are whole milliseconds since 1970-01-01T00:00:00Z.
 */
module Records {

  /** A configured customer: `{name, address, hourlyRate, assignment}`. */
  datatype Customer = Customer(name: string, address: string, hourlyRate: real, assignment: string)

  /** A configured employee: `{firstName, lastName}`. */
  datatype Employee = Employee(firstName: string, lastName: string)

  /** The session held for a device in `activeSessions`. */
  datatype Session = Session(customer: string, startTime: int, workDescription: string)

  /** The record logged when a session closes; the two times are `toISOString` texts. */
  datatype LogEntry = LogEntry(
    employee: string,
    customer: string,
    address: string,
    hourlyRate: real,
    startTime: string,
    endTime: string,
    durationHours: real,
    workDescription: string)

  /** `${firstName} ${lastName}`. */
  function FullName(e: Employee): (r: string)
    ensures |r| == |e.firstName| + 1 + |e.lastName|
    ensures r[..|e.firstName|] == e.firstName && r[|e.firstName|] == ' ' && r[|e.firstName| + 1..] == e.lastName
  {
    e.firstName + " " + e.lastName
  }
}
