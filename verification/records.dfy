/** The stored inspection record: the eight form fields of one QC entry plus the
    identity and creation time the submit handler assigns. */
module Records {
  import opened Wrappers

  /** A `datetime-local` field. `text` is the string the form holds ("YYYY-MM-DDTHH:MM",
      or "" when left blank); `parsed` is the instant `new Date(text)` denotes, in
      milliseconds, or None when the text is not a valid date. */
  datatype Stamp = Stamp(text: string, parsed: Option<int>)

  /** The instant a timestamp field denotes, if any: a blank field is falsy in the
      source and never reaches `new Date`; an unparsable one yields an invalid date. */
  function Millis(s: Stamp): Option<int>
  {
    if s.text == "" then None else s.parsed
  }

  /** The eight fields the submit handler reads from the form. The quantities are
      `parseInt` of the input and are None when that yields NaN. */
  datatype Form = Form(
    description: string,
    totalQty: Option<int>,
    tcnNumber: string,
    inspectedQty: Option<int>,
    received: Stamp,
    qcStart: Stamp,
    finished: Stamp,
    assemblyRequired: string)

  /** A stored record: `id` and `created` (the ISO `timestamp`, as milliseconds)
      are assigned once, when the record is added. */
  datatype Item = Item(id: int, created: int, fields: Form)
}
