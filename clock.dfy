/** Points in time. The program only stamps them onto records and copies
    them around, so a moment is an opaque value handed in by the caller in
    place of `datetime.now()`. */
module Clock {
  datatype Moment = Moment(iso: string)
}
