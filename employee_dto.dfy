/**
 * The employee record the scraper produces, one per row of the company's
 * employee table. The field order is the order in which the record literal
 * lists its keys, which is the order `Object.keys` reports them in.
 */
module EmployeeDto {

  datatype Employee = Employee(
    initials: string,
    name: string,
    email: string,
    phone: string,
    title: string,
    isLead: string)

  /** `Object.keys` of any employee record: its keys in insertion order. */
  const EmployeeKeys: seq<string> := ["initials", "name", "email", "phone", "title", "is_lead"]

}
